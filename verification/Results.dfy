/** The safety results, stated for the two engines themselves. */
module Results {
  import opened Clusters
  import opened Protocol
  import opened Traces
  import opened Discipline
  import opened Engines
  import opened Primaries
  import opened Deletion
  import opened Staleness
  import opened Journal
  import opened Wrappers

  // ---------- where the demotes sit in each sequence ----------

  predicate NoDemote(p: seq<Cmd>) {
    forall c | c in p :: !(c.Do? && c.verb.Demote?) && c != RECLAIM
  }

  lemma DemotedConcat(p: seq<Cmd>, q: seq<Cmd>)
    ensures DemotedBy(p + q) == DemotedBy(p) + DemotedBy(q)
  {
  }

  lemma DemotedPrefix(p: seq<Cmd>, q: seq<Cmd>, k: nat)
    requires NoDemote(p) && k <= |p + q|
    ensures k <= |p| ==> DemotedBy((p + q)[..k]) == {} && RECLAIM !in (p + q)[..k]
    ensures k > |p| ==>
      DemotedBy((p + q)[..k]) == DemotedBy(q[..k - |p|]) && (RECLAIM in (p + q)[..k] <==> RECLAIM in q[..k - |p|])
  {
    if k <= |p| {
      assert (p + q)[..k] == p[..k];
      assert forall c | c in p[..k] :: c in p;
    } else {
      assert (p + q)[..k] == p + q[..k - |p|];
      DemotedConcat(p, q[..k - |p|]);
    }
  }

  lemma ColdStartNoDemote(e: Env, j: Job)
    ensures NoDemote(ColdStart(e, j) + Syncs(Images(e, j), None, 300))
  {
    assert NoDemote(ColdPreflight(e, j) + [CheckAbort]) && NoDemote(ColdQuiesce(e, j));
  }

  lemma EachDemoted(images: seq<string>, tail: seq<Cmd>, m: nat)
    requires |tail| > 0 && tail[0] == RECLAIM && m <= |images| + |tail|
    ensures var p := (Each(Demote, images) + tail)[..m];
      (m <= |images| ==> DemotedBy(p) == SetOf(images[..m]) && RECLAIM !in p) && (m > |images| ==> RECLAIM in p)
  {
    var p := (Each(Demote, images) + tail)[..m];
    if m <= |images| {
      assert p == Each(Demote, images)[..m];
      forall x
        ensures x in DemotedBy(p) <==> x in SetOf(images[..m])
      {
        if x in SetOf(images[..m]) {
          var i :| 0 <= i < m && images[i] == x;
          assert p[i] == Do(Demote, x);
        }
        if x in DemotedBy(p) {
          var i :| 0 <= i < m && p[i] == Do(Demote, x);
          assert images[..m][i] == x;
        }
      }
    } else {
      assert p[|images|] == RECLAIM;
    }
  }

  /** The index of the first demote. */
  function ColdDemotes(e: Env, j: Job): nat {
    |ColdStart(e, j) + Syncs(Images(e, j), None, 300)|
  }

  lemma ColdDemotedAt(e: Env, j: Job, k: nat)
    requires k <= |ColdProgram(e, j)|
    ensures var d := ColdDemotes(e, j);
      var n := |Images(e, j)|;
      var p := ColdProgram(e, j)[..k];
      d + n < |ColdProgram(e, j)| && ColdProgram(e, j)[d + n] == RECLAIM &&
      (RECLAIM in p <==> k > d + n) &&
      (k <= d + n ==> DemotedBy(p) == SetOf(Images(e, j)[..if k < d then 0 else k - d]))
  {
    var a := ColdStart(e, j) + Syncs(Images(e, j), None, 300);
    var tail := Ending(e, j, ColdRoutes(e, j), 95.0);
    var q := Each(Demote, Images(e, j)) + tail;
    ColdShape(e, j);
    assert ColdProgram(e, j) == a + q;
    assert tail[0] == RECLAIM;
    assert q[|Images(e, j)|] == RECLAIM;
    ColdStartNoDemote(e, j);
    DemotedPrefix(a, q, k);
    if k > |a| {
      EachDemoted(Images(e, j), tail, k - |a|);
    }
  }

  /**
   The cold engine, failing at command `k`: before the first demote nothing has moved; inside the demote
   loop exactly the images demoted so far are primary nowhere; after it, if the row could be marked and the
   force-promotes succeed, every image is back at the source and those the destination accepted are primary twice.
   */
  lemma ColdFailurePoints(e: Env, j: Job, s: State, k: nat)
    requires !j.live && Fresh(j, s) && AtSource(e, j, s.w) && StopsAt(e, ColdProgram(e, j), s, k)
    requires Step(e, ColdProgram(e, j)[k], At(e, ColdProgram(e, j), s, k)).Threw?
    ensures var p := ColdProgram(e, j);
      var d := ColdDemotes(e, j);
      var n := |Images(e, j)|;
      var r := Run(e, p, s);
      var late := New(Step(e, p[k], At(e, p, s, k)).s.w, r.s.w);
      var promoted := AcceptedArgs(New(s.w, r.s.w), PromoteRemote);
      (k < d ==> r.s.w.src == s.w.src && r.s.w.dst == s.w.dst) &&
      (d <= k < d + n ==> r.s.w.src == s.w.src - SetOf(Images(e, j)[..k - d]) && r.s.w.dst == s.w.dst) &&
      (k > d + n && r.Finished? && ForcesSucceed(late) ==>
        r.s.w.src == s.w.src && r.s.w.dst == s.w.dst + promoted && r.s.w.src * r.s.w.dst == s.w.src * promoted)
  {
    ColdFollows(e, j);
    FailureMap(e, j, ColdProgram(e, j), s, k);
    ColdDemotedAt(e, j, k);
  }

  lemma {:induction false} FlushesPrefix(images: seq<string>, i: nat)
    requires i <= |images|
    ensures |Flushes(images)| == 2 * |images| && Flushes(images)[..2 * i] == Flushes(images[..i])
    ensures i < |images| ==> !Flushes(images)[2 * i].Do? && Flushes(images)[2 * i + 1] == Do(Demote, images[i])
    decreases |images|
  {
    if images != [] {
      var n := |images| - 1;
      if i < n {
        FlushesPrefix(images[..n], i);
        assert images[..n][..i] == images[..i];
      } else if i == n {
        FlushesPrefix(images[..n], n);
        assert images[..n][..n] == images[..n];
      } else {
        FlushesPrefix(images[..n], n);
        assert images[..i] == images;
      }
    }
  }

  lemma {:induction false} FlushesDemoted(images: seq<string>)
    ensures DemotedBy(Flushes(images)) == SetOf(images) && RECLAIM !in Flushes(images)
    decreases |images|
  {
    if images != [] {
      var n := |images| - 1;
      var last := [Sync(images[n], Some(0), 60), Do(Demote, images[n])];
      FlushesDemoted(images[..n]);
      DemotedConcat(Flushes(images[..n]), last);
      assert last[1] in last;
      assert DemotedBy(last) == {images[n]};
      assert images == images[..n] + [images[n]];
    }
  }

  lemma FlushesDemotedAt(images: seq<string>, tail: seq<Cmd>, m: nat)
    requires |tail| > 0 && tail[0] == RECLAIM && m <= 2 * |images| + |tail|
    ensures |Flushes(images)| == 2 * |images|
    ensures var p := (Flushes(images) + tail)[..m];
      (m <= 2 * |images| ==> DemotedBy(p) == SetOf(images[..m / 2]) && RECLAIM !in p) &&
      (m > 2 * |images| ==> RECLAIM in p)
  {
    var all := Flushes(images);
    FlushesPrefix(images, 0);
    var p := (all + tail)[..m];
    if m <= 2 * |images| {
      var i := m / 2;
      FlushesPrefix(images, i);
      FlushesDemoted(images[..i]);
      assert p == all[..m];
      if m == 2 * i + 1 {
        assert p == all[..2 * i] + [all[2 * i]];
        DemotedSnoc(all[..2 * i], all[2 * i]);
        FlushesDemoted(images);
        assert all[2 * i] in all;
      }
    } else {
      assert p[2 * |images|] == RECLAIM;
    }
  }

  function LiveDemotes(e: Env, j: Job): nat {
    |LiveStart(e, j) + [Move(Event(Cutover, 80.0))]|
  }

  lemma LiveStartNoDemote(e: Env, j: Job)
    ensures NoDemote(LiveStart(e, j) + [Move(Event(Cutover, 80.0))])
  {
    assert NoDemote(LivePreflight(e, j) + [CheckAbort]) && NoDemote(LiveDiskSync(e, j)) && NoDemote(LiveMemory(e, j));
  }

  lemma LiveDemotedAt(e: Env, j: Job, k: nat)
    requires k <= |LiveProgram(e, j)|
    ensures var d := LiveDemotes(e, j);
      var n := |Images(e, j)|;
      var p := LiveProgram(e, j)[..k];
      d + 2 * n < |LiveProgram(e, j)| && LiveProgram(e, j)[d + 2 * n] == RECLAIM &&
      (RECLAIM in p <==> k > d + 2 * n) &&
      (k <= d + 2 * n ==> DemotedBy(p) == SetOf(Images(e, j)[..if k < d then 0 else (k - d) / 2]))
  {
    hide LiveStart, Ending, LiveProgram, LiveBgp, NoDemote;
    LiveShape(e, j);
    EndingStarts(e, j, LiveBgp(e), 96.0);
    LiveStartNoDemote(e, j);
    FlushesInside(LiveStart(e, j) + [Move(Event(Cutover, 80.0))], Images(e, j), Ending(e, j, LiveBgp(e), 96.0), k);
  }

  lemma EndingStarts(e: Env, j: Job, routes: seq<Cmd>, pct: real)
    ensures var q := Ending(e, j, routes, pct);
      |q| > 0 && q[0] == RECLAIM
  {
  }

  lemma FlushesInside(a: seq<Cmd>, images: seq<string>, tail: seq<Cmd>, k: nat)
    requires NoDemote(a) && |tail| > 0 && tail[0] == RECLAIM && k <= |a + Flushes(images) + tail|
    ensures var all := a + Flushes(images) + tail;
      var end := |a| + 2 * |images|;
      end < |all| && all[end] == RECLAIM && (RECLAIM in all[..k] <==> k > end) &&
      (k <= end ==> DemotedBy(all[..k]) == SetOf(images[..if k < |a| then 0 else (k - |a|) / 2]))
  {
    var q := Flushes(images) + tail;
    assert a + Flushes(images) + tail == a + q;
    FlushesDemotedAt(images, tail, 0);
    DemotedPrefix(a, q, k);
    if k > |a| {
      FlushesDemotedAt(images, tail, k - |a|);
    }
  }

  /** The same for the live engine, whose waits and demotes alternate. */
  lemma LiveFailurePoints(e: Env, j: Job, s: State, k: nat)
    requires j.live && Fresh(j, s) && AtSource(e, j, s.w) && StopsAt(e, LiveProgram(e, j), s, k)
    requires Step(e, LiveProgram(e, j)[k], At(e, LiveProgram(e, j), s, k)).Threw?
    ensures var p := LiveProgram(e, j);
      var d := LiveDemotes(e, j);
      var n := |Images(e, j)|;
      var r := Run(e, p, s);
      var late := New(Step(e, p[k], At(e, p, s, k)).s.w, r.s.w);
      var promoted := AcceptedArgs(New(s.w, r.s.w), PromoteRemote);
      (k < d ==> r.s.w.src == s.w.src && r.s.w.dst == s.w.dst) &&
      (d <= k < d + 2 * n ==> r.s.w.src == s.w.src - SetOf(Images(e, j)[..(k - d) / 2]) && r.s.w.dst == s.w.dst) &&
      (k > d + 2 * n && r.Finished? && ForcesSucceed(late) ==>
        r.s.w.src == s.w.src && r.s.w.dst == s.w.dst + promoted && r.s.w.src * r.s.w.dst == s.w.src * promoted)
  {
    LiveFollows(e, j);
    FailureMap(e, j, LiveProgram(e, j), s, k);
    LiveDemotedAt(e, j, k);
  }

  // ---------- the general results, for the engines ----------

  /**
   Both engines, aborts included: at every command they reach, after it whether it raises or not, and at the end, the
   images primary on both sides are exactly those whose force-promote and remote promote were both accepted; so
   there is none unless an abort arrives after the registration of the disk rollback.
   */
  lemma EngineNeverDoublyPrimary(e: Env, j: Job, p: seq<Cmd>, s: State, k: nat)
    requires RunOf(e, j, p) && Fresh(j, s) && AtSource(e, j, s.w) && Reaches(e, p, s, k)
    ensures DoublyExactly(New(s.w, At(e, p, s, k).w), At(e, p, s, k).w)
    ensures DoublyExactly(New(s.w, Run(e, p, s).s.w), Run(e, p, s).s.w)
    ensures !AbortedLate(p[..k]) ==> At(e, p, s, k).w.src !! At(e, p, s, k).w.dst
    ensures k < |p| ==>
      var w := Step(e, p[k], At(e, p, s, k)).s.w;
      DoublyExactly(New(s.w, w), w) && (!AbortedLate(p[..k + 1]) ==> w.src !! w.dst)
  {
    EnginesFollow(e, j, p);
    hide Follows, DoublyExactly, AbortedLate, RunOf;
    DoublyPrimaryExactly(e, j, p, s, k);
    RunDoublyPrimaryExactly(e, j, p, s);
    NeverDoublyPrimary(e, j, p, s, k);
  }

  /** Calling `abort` before a failure, any number of times, leaves the source as the failure alone would. */
  lemma AbortThenFail(e: Env, j: Job, p: seq<Cmd>, s: State, k: nat)
    requires RunOf(e, j, p) && Fresh(j, s) && AtSource(e, j, s.w)
    requires StopsAt(e, p, s, k) && Step(e, p[k], At(e, p, s, k)).Threw?
    ensures var r := Run(e, p, s);
      var late := New(Step(e, p[k], At(e, p, s, k)).s.w, r.s.w);
      r.Finished? && ForcesSucceed(late) ==>
        r.s.w.src == if RECLAIM in Strip(p[..k]) then s.w.src else s.w.src - DemotedBy(Strip(p[..k]))
  {
    EnginesFollow(e, j, p);
    FailureMap(e, j, p, s, k);
    StripMembers(p[..k]);
    assert DemotedBy(p[..k]) == DemotedBy(Strip(p[..k]));
  }

  lemma EngineDeletionSafety(e: Env, j: Job, p: seq<Cmd>, s: State, t: nat)
    requires RunOf(e, j, p)
    requires |s.w.trace| <= t < |Run(e, p, s).s.w.trace| && Run(e, p, s).s.w.trace[t].verb.DeleteVm?
    ensures var trace := Run(e, p, s).s.w.trace;
      trace[t].arg == j.vmId && SafeToDelete(e, j, trace, |s.w.trace|, t) &&
      forall t' | |s.w.trace| <= t' < |trace| && trace[t'].verb.DeleteVm? :: t' == t
  {
    EnginesFollow(e, j, p);
    DeletionSafety(e, j, p, s, t);
  }

  /** Everything before the clean-up. */
  function BeforeCleanup(e: Env, j: Job): seq<Cmd> {
    (if j.live then LiveDemoted(e, j) else ColdDemoted(e, j)) + [RECLAIM] + Each(Promote(e), Images(e, j)) +
    if j.live then LiveBgp(e) else ColdRoutes(e, j)
  }

  function CleanupPct(j: Job): real {
    if j.live then 96.0 else 95.0
  }

  lemma BeforeCleanupNoDelete(e: Env, j: Job)
    ensures NoDelete(BeforeCleanup(e, j))
  {
    BgpHarmless(e);
    ColdRoutesHarmless(e, j);
    HarmlessContinues(e, j, [], ColdRoutes(e, j));
    HarmlessContinues(e, j, [], LiveBgp(e));
    PromotesContinue(e, j, [RECLAIM]);
    if j.live {
      LiveStartFollows(e, j);
      FlushesAll(Images(e, j));
      assert NoDelete(LiveDemoted(e, j));
    } else {
      ColdSynced(e, j);
      assert NoDelete(ColdDemoted(e, j));
    }
  }

  lemma CleanupShape(e: Env, j: Job)
    ensures Program(e, j) == BeforeCleanup(e, j) + (Cleaning(j, CleanupPct(j)) + Finish())
  {
    ColdShape(e, j);
    LiveShape(e, j);
    EndingIsNested(e, j);
  }

  lemma EndingIsNested(e: Env, j: Job)
    ensures var routes := if j.live then LiveBgp(e) else ColdRoutes(e, j);
      var p := if j.live then LiveDemoted(e, j) else ColdDemoted(e, j);
      p + Ending(e, j, routes, CleanupPct(j)) == BeforeCleanup(e, j) + (Cleaning(j, CleanupPct(j)) + Finish())
  {
  }

  lemma DeleteIsLastButOne(e: Env, j: Job)
    ensures var p := Program(e, j);
      var k := |p| - 2;
      k >= 1 && p[k] == Try(DeleteVm, j.vmId) && p[k - 1].Move? && p[k - 1].event.phase.Cleanup? && NoDelete(p[..k])
  {
    var p := Program(e, j);
    var a := BeforeCleanup(e, j);
    var b := Cleaning(j, CleanupPct(j)) + Finish();
    CleanupShape(e, j);
    BeforeCleanupNoDelete(e, j);
    hide BeforeCleanup, Program;
    assert |b| == 3 && b[0].Move? && b[1] == Try(DeleteVm, j.vmId);
    assert p[..|p| - 2] == a + [b[0]];
  }

  /** The deletion's place in a run with aborts woven in. */
  lemma OneDelete(e: Env, j: Job, p: seq<Cmd>, k: nat)
    requires RunOf(e, j, p) && k < |p| && p[k].Try? && p[k].verb.DeleteVm?
    ensures NoDelete(p[..k]) && Strip(p[..k]) == Program(e, j)[..|Program(e, j)| - 2]
  {
    var all := Program(e, j);
    var n := |all| - 2;
    var m := |Strip(p[..k])|;
    DeleteIsLastButOne(e, j);
    StripPrefix(p, k);
    StripMembers(p[..k]);
    LastIsDone(e, j);
    hide Program;
    NoneBefore(all, n);
    assert m == n;
  }

  /** A run with any aborts deletes the source VM, or tries to, exactly if it gets past its CLEANUP transition. */
  lemma EngineDeletionIff(e: Env, j: Job, p: seq<Cmd>, s: State, k: nat)
    requires RunOf(e, j, p) && k < |p| && p[k].Try? && p[k].verb.DeleteVm?
    ensures Move(Event(Cleanup, CleanupPct(j))) in p[..k]
    ensures (exists t | |s.w.trace| <= t < |Run(e, p, s).s.w.trace| :: Run(e, p, s).s.w.trace[t].verb.DeleteVm?)
        <==> Reaches(e, p, s, k)
  {
    OneDelete(e, j, p, k);
    EnginesFollow(e, j, p);
    DeletionAttemptedIff(e, j, p, s, k);
    CleanupEntered(e, j);
    StripMembers(p[..k]);
  }

  lemma CleanupEntered(e: Env, j: Job)
    ensures Move(Event(Cleanup, CleanupPct(j))) in Program(e, j)[..|Program(e, j)| - 2]
  {
    var p := Program(e, j);
    var a := BeforeCleanup(e, j);
    var b := Cleaning(j, CleanupPct(j)) + Finish();
    CleanupShape(e, j);
    hide BeforeCleanup, Program;
    assert |b| == 3 && b[0] == Move(Event(Cleanup, CleanupPct(j)));
    assert p[..|p| - 2] == a + [b[0]];
  }

  lemma EngineStaleness(e: Env, j: Job, p: seq<Cmd>, s: State, t: nat)
    requires RunOf(e, j, p)
    requires |s.w.trace| <= t < |Run(e, p, s).s.w.trace| && Run(e, p, s).s.w.trace[t].verb.Demote?
    ensures var trace := Run(e, p, s).s.w.trace;
      (exists q | |s.w.trace| <= q < t :: StoppedAt(e, j, trace, q)) &&
      forall q | |s.w.trace| <= q && StoppedAt(e, j, trace, q) && Quiet(e, q) && NeverUnderstated(e) ::
        Unsynced(e, t, trace[t].arg) <= e.defaultLag
  {
    EnginesFollow(e, j, p);
    BoundedStaleness(e, j, p, s, t);
  }

  /**
   Stopping the VM, in a run of either engine with any aborts. A cold run of an ACTIVE VM asks for the stop and sees the
   VM shut off before its first demote. The status is polled only after an accepted request; and a live run, or a run of
   a VM that is not ACTIVE, never asks.
   */
  lemma EngineStopsVm(e: Env, j: Job, p: seq<Cmd>, s: State, t: nat)
    requires RunOf(e, j, p) && |s.w.trace| <= t < |Run(e, p, s).s.w.trace|
    ensures var trace := Run(e, p, s).s.w.trace;
      (trace[t].verb.Demote? && !j.live && e.vm.status.Active? ==> StoppedOnRequest(e, j, trace, |s.w.trace|, t)) &&
      (trace[t].verb.GetServer? ==> Succeeded(trace, |s.w.trace|, t, StopServer, j.vmId)) &&
      (trace[t].verb.StopServer? ==> !j.live && e.vm.status.Active? && trace[t].arg == j.vmId)
  {
    EnginesFollow(e, j, p);
    hide Follows, RunOf, StoppedOnRequest, Succeeded;
    StopRequested(e, j, p, s, t);
    if Run(e, p, s).s.w.trace[t].verb.Demote? && !j.live && e.vm.status.Active? {
      StoppedBeforeDemote(e, j, p, s, t);
    }
  }

  /** A completed cold run of an ACTIVE VM has stopped it, even if there was no image to demote. */
  lemma CompletedRunStopped(e: Env, j: Job, p: seq<Cmd>, s: State)
    requires RunOf(e, j, p) && !j.live && e.vm.status.Active? && Exec(e, p, s).Ran?
    ensures var trace := Exec(e, p, s).s.w.trace; StoppedOnRequest(e, j, trace, |s.w.trace|, |trace|)
  {
    EnginesFollow(e, j, p);
    StripMembers(p);
    assert ColdQuiesce(e, j)[2] == AwaitVm(j.vmId, Shutoff);
    hide Follows, ColdQuiesce, Strip;
    QuiescePlanned(e, j);
    assert p[..|p|] == p;
    var i :| 0 <= i < |p| && p[i] == AwaitVm(j.vmId, Shutoff);
    AwaitedStop(e, j, p, s, i, |p|);
  }

  lemma QuiescePlanned(e: Env, j: Job)
    ensures forall c | c in ColdQuiesce(e, j) :: c in ColdProgram(e, j)
  {
    hide ColdPreflight, ColdQuiesce, Syncs, Ending, ColdProgram;
    ColdShape(e, j);
  }

  lemma {:induction false} CountNoDemotes(p: seq<Cmd>)
    requires forall c | c in p :: !(c.Do? && c.verb.Demote?)
    ensures DemoteCmds(p) == 0
  {
    if p != [] {
      assert forall c | c in p[..|p| - 1] :: c in p;
      assert p[|p| - 1] in p;
      CountNoDemotes(p[..|p| - 1]);
    }
  }

  lemma {:induction false} CountEach(images: seq<string>)
    ensures DemoteCmds(Each(Demote, images)) == |images|
    decreases |images|
  {
    if images != [] {
      assert Each(Demote, images)[..|images| - 1] == Each(Demote, images[..|images| - 1]);
      CountEach(images[..|images| - 1]);
    }
  }

  lemma {:induction false} CountFlushes(images: seq<string>)
    ensures DemoteCmds(Flushes(images)) == |images|
    decreases |images|
  {
    if images != [] {
      var n := |images| - 1;
      var last := [Sync(images[n], Some(0), 60), Do(Demote, images[n])];
      CountFlushes(images[..n]);
      DemoteCmdsConcat(Flushes(images[..n]), last);
      DemoteCmdsConcat([last[0]], [last[1]]);
      assert last == [last[0]] + [last[1]] && [last[0]][..0] == [] && [last[1]][..0] == [];
    }
  }

  lemma CountEnding(e: Env, j: Job, routes: seq<Cmd>, pct: real)
    requires forall c | c in routes :: Harmless(e, c)
    ensures DemoteCmds(Ending(e, j, routes, pct)) == 0
  {
    CountNoDemotes(Ending(e, j, routes, pct));
  }

  /** Each engine demotes every image on its list once. */
  lemma ProgramDemotes(e: Env, j: Job)
    ensures DemoteCmds(Program(e, j)) == |Images(e, j)|
  {
    BgpHarmless(e);
    ColdRoutesHarmless(e, j);
    if j.live {
      var a := LiveStart(e, j) + [Move(Event(Cutover, 80.0))];
      LiveStartNoDemote(e, j);
      CountNoDemotes(a);
      CountFlushes(Images(e, j));
      DemoteCmdsConcat(a, Flushes(Images(e, j)));
      CountEnding(e, j, LiveBgp(e), 96.0);
      DemoteCmdsConcat(LiveDemoted(e, j), Ending(e, j, LiveBgp(e), 96.0));
      LiveShape(e, j);
    } else {
      var a := ColdStart(e, j) + Syncs(Images(e, j), None, 300);
      ColdStartNoDemote(e, j);
      CountNoDemotes(a);
      CountEach(Images(e, j));
      DemoteCmdsConcat(a, Each(Demote, Images(e, j)));
      CountEnding(e, j, ColdRoutes(e, j), 95.0);
      DemoteCmdsConcat(ColdDemoted(e, j), Ending(e, j, ColdRoutes(e, j), 95.0));
      ColdShape(e, j);
    }
  }

  /** All bytes a run leaves unsynced at its demotes: at most the image count times the default threshold. */
  lemma EngineTotalStaleness(e: Env, j: Job, p: seq<Cmd>, s: State, q: nat)
    requires RunOf(e, j, p) && e.defaultLag >= 0
    requires |s.w.trace| <= q && StoppedAt(e, j, Run(e, p, s).s.w.trace, q) && Quiet(e, q) && NeverUnderstated(e)
    ensures UnsyncedBytes(e, Run(e, p, s).s.w.trace, |s.w.trace|) <= |Images(e, j)| * e.defaultLag
  {
    EnginesFollow(e, j, p);
    EngineCommands(e, j);
    StripMembers(p);
    TotalStaleness(e, j, p, s, q);
    DemoteCmdsStrip(p);
    ProgramDemotes(e, j);
  }

  /** The exact primary map of a completed run of either engine, aborts included. */
  lemma EngineCompleted(e: Env, j: Job, p: seq<Cmd>, s: State)
    requires RunOf(e, j, p) && Fresh(j, s) && AtSource(e, j, s.w) && Exec(e, p, s).Ran?
    ensures var w := Exec(e, p, s).s.w;
      var forced := AcceptedArgs(New(s.w, w), ForcePromote);
      (forall image | image in Images(e, j) ::
        image in w.dst <==> e.destClient && Attempt(PromoteRemote, image, Accepted) in New(s.w, w)) &&
      (if e.destClient then w.src == s.w.src - SetOf(Images(e, j)) + forced else w.src == s.w.src) &&
      (!AbortedLate(p) ==> forced == {})
  {
    EnginesFollow(e, j, p);
    PromotesPlanned(e, j);
    StripMembers(p);
    CompletedMap(e, j, p, s);
  }

  lemma PromotesPlanned(e: Env, j: Job)
    ensures AllDone(Program(e, j), Promote(e), Images(e, j)) && RECLAIM in Program(e, j)
  {
    CleanupShape(e, j);
    EachIn((if j.live then LiveDemoted(e, j) else ColdDemoted(e, j)) + [RECLAIM], Promote(e), Images(e, j));
  }

  /**
   The queue worker builds its engines without stubs. Such a run, when it completes, has tried to delete the
   source VM while every image is still primary at the source and none at the destination, whatever aborts arrived.
   */
  lemma StublessRunMovesNothing(e: Env, j: Job, p: seq<Cmd>, s: State)
    requires RunOf(e, j, p) && Fresh(j, s) && AtSource(e, j, s.w) && Exec(e, p, s).Ran? && !e.destClient
    ensures var w := Exec(e, p, s).s.w;
      w.src == s.w.src && (forall image | image in Images(e, j) :: image !in w.dst) &&
      exists t | |s.w.trace| <= t < |w.trace| :: w.trace[t].verb.DeleteVm?
  {
    EngineCompleted(e, j, p, s);
    CompletedDeletes(e, j, p, s);
  }

  /** A completed run has tried to delete the source VM. */
  lemma CompletedDeletes(e: Env, j: Job, p: seq<Cmd>, s: State)
    requires RunOf(e, j, p) && Exec(e, p, s).Ran?
    ensures var w := Exec(e, p, s).s.w; exists t | |s.w.trace| <= t < |w.trace| :: w.trace[t].verb.DeleteVm?
  {
    DeleteIsLastButOne(e, j);
    StripMembers(p);
    assert Program(e, j)[|Program(e, j)| - 2] in Program(e, j);
    var k :| 0 <= k < |p| && p[k] == Try(DeleteVm, j.vmId);
    EngineDeletionIff(e, j, p, s, k);
    assert p[..|p|] == p;
    ReachPrevious(e, p, s, k, |p|);
    assert Run(e, p, s).s == Exec(e, p, s).s;
  }
}
