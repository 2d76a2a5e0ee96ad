/** The command sequences of the two engines, step by step, and the order they keep. */
module Engines {
  import opened Clusters
  import opened Protocol
  import opened Discipline
  import opened Wrappers

  function Each(verb: Verb, args: seq<string>): seq<Cmd> {
    seq(|args|, i requires 0 <= i < |args| => Do(verb, args[i]))
  }

  function Tries(verb: Verb, args: seq<string>): seq<Cmd> {
    seq(|args|, i requires 0 <= i < |args| => Try(verb, args[i]))
  }

  function Checks(images: seq<string>): seq<Cmd> {
    seq(|images|, i requires 0 <= i < |images| => Check(images[i]))
  }

  function Syncs(images: seq<string>, limit: Option<int>, timeout: nat): seq<Cmd> {
    seq(|images|, i requires 0 <= i < |images| => Sync(images[i], limit, timeout))
  }

  function Copies(images: seq<string>): seq<Cmd> {
    seq(|images|, i requires 0 <= i < |images| => Copy(images[i]))
  }

  /** One wait and one demote per image, alternating. */
  function Flushes(images: seq<string>): seq<Cmd> {
    if images == [] then []
    else
      var n := |images| - 1;
      Flushes(images[..n]) + [Sync(images[n], Some(0), 60), Do(Demote, images[n])]
  }

  /** The overall percentage of one monitor reading: memory copying covers 25 to 75. */
  function MemoryEvent(pct: real): Event {
    Event(Memory, 25.0 + pct * 0.5)
  }

  /** `_get_progress_pct`: capped at 99, zero without a job. */
  function ProgressPct(info: JobInfo): real {
    if info.Job? && info.total > 0 then
      var pct := info.processed as real / info.total as real * 100.0;
      if pct < 99.0 then pct else 99.0
    else 0.0
  }

  function Observations(samples: seq<JobInfo>): seq<Cmd> {
    seq(|samples|, i requires 0 <= i < |samples| => Observe(MemoryEvent(ProgressPct(samples[i]))))
  }

  // ---------- routes ----------

  /** Announce every prefix here, then ask the other side to withdraw each one, ignoring errors. */
  function Handoff(prefixes: seq<string>, client: Client): seq<Cmd> {
    Each(Announce, prefixes) + Tries(RemoteWithdraw(client), prefixes)
  }

  // ---------- cold migration ----------

  function Preflighting(e: Env, j: Job, statusOk: bool): seq<Cmd> {
    [Move(Event(Preflight, 5.0)), Do(GetVm, j.vmId), Guard(statusOk), Collect] + Checks(Images(e, j))
  }

  function ColdPreflight(e: Env, j: Job): seq<Cmd> {
    Preflighting(e, j, e.vm.status.Active? || e.vm.status.Shutoff?)
  }

  function StopVm(j: Job): seq<Cmd> {
    [Do(StopServer, j.vmId), AwaitVm(j.vmId, Shutoff)]
  }

  function ColdQuiesce(e: Env, j: Job): seq<Cmd> {
    [Move(Event(Disk, 20.0))] + if e.vm.status.Active? then StopVm(j) else []
  }

  function ColdDisk(e: Env, j: Job): seq<Cmd> {
    var images := Images(e, j);
    ColdQuiesce(e, j) + Syncs(images, None, 300) + Each(Demote, images) + [RECLAIM] +
    Each(Promote(e), images) + [Move(Event(Disk, 50.0))]
  }

  function ColdCutover(e: Env, j: Job): seq<Cmd> {
    [Move(Event(Cutover, 70.0))] + Copies(Images(e, j))
  }

  function ColdBgp(e: Env): seq<Cmd> {
    var prefixes := Prefixes(e);
    [Move(Event(Bgp, 85.0))] +
    if prefixes == [] then [] else Handoff(prefixes, SourceClient(e)) + [Register(ReverseRoutes(prefixes))]
  }

  function Cleaning(j: Job, pct: real): seq<Cmd> {
    [Move(Event(Cleanup, pct)), Try(DeleteVm, j.vmId)]
  }

  function Finish(): seq<Cmd> {
    [Move(Event(Done, 100.0))]
  }

  function ColdProgram(e: Env, j: Job): seq<Cmd> {
    ColdPreflight(e, j) + [CheckAbort] + ColdDisk(e, j) + ColdCutover(e, j) + ColdBgp(e) + Cleaning(j, 95.0) + Finish()
  }

  // ---------- live migration ----------

  function LivePreflight(e: Env, j: Job): seq<Cmd> {
    Preflighting(e, j, e.vm.status.Active?)
  }

  function LiveDiskSync(e: Env, j: Job): seq<Cmd> {
    [Move(Event(Disk, 15.0))] + Each(MirrorStatus, Images(e, j))
  }

  function Tunnel(e: Env): seq<Cmd> {
    Observations(e.samples) + [Do(Migrate, ""), Move(MemoryEvent(100.0))]
  }

  function LiveMemory(e: Env, j: Job): seq<Cmd> {
    [Move(Event(Memory, 25.0)), Guard(j.destHost != ""), Register(AbortTunnel)] + Tunnel(e)
  }

  function LiveCutover(e: Env, j: Job): seq<Cmd> {
    var images := Images(e, j);
    [Move(Event(Cutover, 80.0))] + Flushes(images) + [RECLAIM] + Each(Promote(e), images)
  }

  function LiveBgp(e: Env): seq<Cmd> {
    [Move(Event(Bgp, 90.0))] + if Prefixes(e) == [] then [] else Handoff(Prefixes(e), SourceClient(e))
  }

  function LiveProgram(e: Env, j: Job): seq<Cmd> {
    LivePreflight(e, j) + [CheckAbort] + LiveDiskSync(e, j) + LiveMemory(e, j) + LiveCutover(e, j) + LiveBgp(e) +
    Cleaning(j, 96.0) + Finish()
  }

  function Program(e: Env, j: Job): seq<Cmd> {
    if j.live then LiveProgram(e, j) else ColdProgram(e, j)
  }

  /** An engine's commands with aborts woven in anywhere, however many. */
  predicate RunOf(e: Env, j: Job, p: seq<Cmd>) {
    Strip(p) == Program(e, j)
  }

  // ---------- both keep the discipline ----------

  lemma EachIn(before: seq<Cmd>, verb: Verb, args: seq<string>)
    ensures AllDone(before + Each(verb, args), verb, args)
  {
    forall i | 0 <= i < |args|
      ensures Do(verb, args[i]) in before + Each(verb, args)
    {
      assert Each(verb, args)[i] == Do(verb, args[i]);
    }
  }

  lemma SyncsIn(before: seq<Cmd>, images: seq<string>, limit: Option<int>, timeout: nat)
    ensures forall image | image in images :: Sync(image, limit, timeout) in before + Syncs(images, limit, timeout)
  {
    forall image | image in images
      ensures Sync(image, limit, timeout) in before + Syncs(images, limit, timeout)
    {
      var i :| 0 <= i < |images| && images[i] == image;
      assert Syncs(images, limit, timeout)[i] == Sync(image, limit, timeout);
    }
  }

  /** Everything up to the first wait. */
  function ColdStart(e: Env, j: Job): seq<Cmd> {
    ColdPreflight(e, j) + [CheckAbort] + ColdQuiesce(e, j)
  }

  predicate AllChecked(p: seq<Cmd>, images: seq<string>) {
    forall image | image in images :: Check(image) in p
  }

  lemma ChecksIn(before: seq<Cmd>, images: seq<string>)
    ensures AllChecked(before + Checks(images), images)
  {
    forall image | image in images
      ensures Check(image) in before + Checks(images)
    {
      var i :| 0 <= i < |images| && images[i] == image;
      assert Checks(images)[i] == Check(image);
    }
  }

  lemma PreflightFollows(e: Env, j: Job, statusOk: bool)
    ensures var p := Preflighting(e, j, statusOk);
      Follows(e, j, p) && NoSync(p) && NoDelete(p) && RECLAIM !in p && Collect in p && Do(GetVm, j.vmId) in p &&
      Guard(statusOk) in p && AllChecked(p, Images(e, j)) && Do(Migrate, "") !in p
  {
    var p := Preflighting(e, j, statusOk);
    forall k | 0 <= k < |p|
      ensures Allowed(e, j, p[..k], p[k])
    {
      if k == 1 {
        assert p[..k] == [p[0]];
      }
      if k == 3 {
        assert p[..k] == [p[0], p[1], p[2]];
      }
    }
    assert p[1] == Do(GetVm, j.vmId) && p[2] == Guard(statusOk) && p[3] == Collect;
    ChecksIn([Move(Event(Preflight, 5.0)), Do(GetVm, j.vmId), Guard(statusOk), Collect], Images(e, j));
  }

  lemma ColdStartFollows(e: Env, j: Job)
    requires !j.live
    ensures var p := ColdStart(e, j);
      Follows(e, j, p) && NoSync(p) && NoDelete(p) && RECLAIM !in p && Collect in p && AllChecked(p, Images(e, j)) &&
      (Guard(false) in p || Quiesced(e, j, p))
  {
    var ok := e.vm.status.Active? || e.vm.status.Shutoff?;
    var pre := ColdPreflight(e, j);
    var q := [CheckAbort] + ColdQuiesce(e, j);
    PreflightFollows(e, j, ok);
    QuiesceContinues(e, j, pre);
    FollowsConcat(e, j, pre, q);
    hide Preflighting, ColdQuiesce, Follows, Continues;
    assert ColdStart(e, j) == pre + q;
    assert Guard(ok) in pre;
  }

  lemma QuiesceContinues(e: Env, j: Job, before: seq<Cmd>)
    requires NoSync(before) && !j.live
    ensures var q := [CheckAbort] + ColdQuiesce(e, j);
      Continues(e, j, before, q) && NoSync(q) && NoDelete(q) && RECLAIM !in q &&
      (e.vm.status.Active? ==> AwaitVm(j.vmId, Shutoff) in q)
  {
    var q := [CheckAbort] + ColdQuiesce(e, j);
    forall k | 0 <= k < |q|
      ensures Allowed(e, j, before + q[..k], q[k])
    {
      if k == 3 {
        assert q[..k][2] == Do(StopServer, j.vmId);
      }
    }
    if e.vm.status.Active? {
      assert q[3] == AwaitVm(j.vmId, Shutoff);
    }
  }

  /** Everything up to and including the memory copy. */
  function LiveStart(e: Env, j: Job): seq<Cmd> {
    LivePreflight(e, j) + [CheckAbort] + LiveDiskSync(e, j) + LiveMemory(e, j)
  }

  /** Everything after preflight and before the memory copy itself. */
  function LiveMiddle(e: Env, j: Job): seq<Cmd> {
    [CheckAbort] + LiveDiskSync(e, j) + [Move(Event(Memory, 25.0)), Guard(j.destHost != ""), Register(AbortTunnel)] +
    Observations(e.samples)
  }

  function LiveCopy(): seq<Cmd> {
    [Do(Migrate, ""), Move(MemoryEvent(100.0))]
  }

  lemma LiveMiddleHarmless(e: Env, j: Job)
    ensures forall c | c in LiveMiddle(e, j) :: Harmless(e, c)
    ensures NoSync(LiveMiddle(e, j)) && Register(AbortTunnel) in LiveMiddle(e, j)
    ensures Do(Migrate, "") !in LiveMiddle(e, j) && Guard(j.destHost != "") in LiveMiddle(e, j)
    ensures LiveStart(e, j) == LivePreflight(e, j) + LiveMiddle(e, j) + LiveCopy()
  {
  }

  lemma LiveStartFollows(e: Env, j: Job)
    requires j.live
    ensures var p := LiveStart(e, j);
      Follows(e, j, p) && NoDelete(p) && RECLAIM !in p && Collect in p && Do(Migrate, "") in p &&
      AllChecked(p, Images(e, j))
  {
    var pre := LivePreflight(e, j);
    var mid := LiveMiddle(e, j);
    PreflightFollows(e, j, e.vm.status.Active?);
    LiveMiddleHarmless(e, j);
    HarmlessContinues(e, j, pre, mid);
    FollowsConcat(e, j, pre, mid);
    LiveStartEnd(e, j, pre + mid);
    FollowsConcat(e, j, pre + mid, LiveCopy());
    assert LiveCopy()[0] == Do(Migrate, "");
  }

  lemma LiveStartEnd(e: Env, j: Job, before: seq<Cmd>)
    requires j.live && NoSync(before) && Register(AbortTunnel) in before && Do(Migrate, "") !in before
    requires Guard(false) in before || (e.vm.status.Active? && j.destHost != "")
    ensures Continues(e, j, before, LiveCopy())
  {
    var q := LiveCopy();
    forall k | 0 <= k < |q|
      ensures Allowed(e, j, before + q[..k], q[k])
    {
    }
  }

  /** Commands that are harmless anywhere, such as transitions and copies. */
  predicate Harmless(e: Env, c: Cmd) {
    match c
    case Do(verb, arg) => (verb.Announce? && arg in Prefixes(e)) || verb.MirrorStatus?
    case Try(verb, arg) => verb == RemoteWithdraw(SourceClient(e)) && arg in Prefixes(e)
    case Register(handler) => !handler.ReclaimDisks?
    case Collect => false
    case AwaitVm(_, _) => false
    case _ => true
  }

  lemma HarmlessContinues(e: Env, j: Job, before: seq<Cmd>, q: seq<Cmd>)
    requires forall c | c in q :: Harmless(e, c)
    ensures Continues(e, j, before, q)
    ensures NoDelete(q) && RECLAIM !in q
  {
    forall k | 0 <= k < |q|
      ensures Allowed(e, j, before + q[..k], q[k])
    {
      assert q[k] in q;
    }
  }

  lemma DemotesContinue(e: Env, j: Job, before: seq<Cmd>)
    requires RECLAIM !in before && Collect in before && AllChecked(before, Images(e, j))
    requires Guard(false) in before || Quiesced(e, j, before)
    requires forall image | image in Images(e, j) :: Sync(image, None, 300) in before
    ensures Continues(e, j, before, Each(Demote, Images(e, j)))
  {
    var q := Each(Demote, Images(e, j));
    forall k | 0 <= k < |q|
      ensures Allowed(e, j, before + q[..k], q[k])
    {
      var image := Images(e, j)[k];
      assert Sync(image, None, 300) in before + q[..k];
      assert Check(image) in before;
    }
  }

  lemma FlushContinues(e: Env, j: Job, before: seq<Cmd>, image: string)
    requires image in Images(e, j) && Check(image) in before
    requires RECLAIM !in before && Collect in before && j.live && Do(Migrate, "") in before
    ensures Continues(e, j, before, [Sync(image, Some(0), 60), Do(Demote, image)])
  {
    var q := [Sync(image, Some(0), 60), Do(Demote, image)];
    forall k | 0 <= k < |q|
      ensures Allowed(e, j, before + q[..k], q[k])
    {
      if k == 1 {
        assert q[..1] == [q[0]];
        assert q[0] in before + q[..1];
      }
    }
  }

  lemma {:induction false} FlushesContinue(e: Env, j: Job, before: seq<Cmd>, images: seq<string>)
    requires forall image | image in images :: image in Images(e, j)
    requires RECLAIM !in before && Collect in before && AllChecked(before, Images(e, j))
    requires j.live && Do(Migrate, "") in before
    ensures Continues(e, j, before, Flushes(images))
    decreases |images|
  {
    if images != [] {
      var n := |images| - 1;
      FlushesContinue(e, j, before, images[..n]);
      FlushesAll(images[..n]);
      assert images[n] in images;
      FlushContinues(e, j, before + Flushes(images[..n]), images[n]);
      ContinuesConcat(e, j, before, Flushes(images[..n]), [Sync(images[n], Some(0), 60), Do(Demote, images[n])]);
    }
  }

  lemma {:induction false} FlushesAll(images: seq<string>)
    ensures RECLAIM !in Flushes(images) && NoDelete(Flushes(images)) && AllDone(Flushes(images), Demote, images)
    decreases |images|
  {
    if images != [] {
      var n := |images| - 1;
      var last := [Sync(images[n], Some(0), 60), Do(Demote, images[n])];
      FlushesAll(images[..n]);
      forall i | 0 <= i < |images|
        ensures Do(Demote, images[i]) in Flushes(images)
      {
        if i < n {
          assert Do(Demote, images[..n][i]) in Flushes(images[..n]);
        } else {
          assert last[1] in Flushes(images);
        }
      }
    }
  }

  /** What both engines do once the images are demoted; `routes` holds whatever comes before the clean-up. */
  function Ending(e: Env, j: Job, routes: seq<Cmd>, pct: real): seq<Cmd> {
    [RECLAIM] + Each(Promote(e), Images(e, j)) + routes + Cleaning(j, pct) + Finish()
  }

  lemma EndingFollows(e: Env, j: Job, p: seq<Cmd>, routes: seq<Cmd>, pct: real)
    requires Follows(e, j, p) && RECLAIM !in p && Collect in p && NoDelete(p) && AllDone(p, Demote, Images(e, j))
    requires forall c | c in routes :: Harmless(e, c)
    requires AllDone(routes, Announce, Prefixes(e))
    ensures Follows(e, j, p + Ending(e, j, routes, pct))
  {
    var a := p + [RECLAIM];
    var promotes := Each(Promote(e), Images(e, j));
    PromotesFollow(e, j, p);
    RoutesFollow(e, j, a + promotes, routes, pct);
    EndingShape(e, j, p, routes, pct);
  }

  lemma EndingShape(e: Env, j: Job, p: seq<Cmd>, routes: seq<Cmd>, pct: real)
    ensures p + Ending(e, j, routes, pct) ==
            p + [RECLAIM] + Each(Promote(e), Images(e, j)) + (routes + (Cleaning(j, pct) + Finish()))
  {
  }

  lemma RoutesFollow(e: Env, j: Job, p: seq<Cmd>, routes: seq<Cmd>, pct: real)
    requires Follows(e, j, p) && RECLAIM in p && NoDelete(p) && AllDone(p, Promote(e), Images(e, j))
    requires forall c | c in routes :: Harmless(e, c)
    requires AllDone(routes, Announce, Prefixes(e))
    ensures Follows(e, j, p + (routes + (Cleaning(j, pct) + Finish())))
  {
    HarmlessContinues(e, j, p, routes);
    FollowsConcat(e, j, p, routes);
    CleaningContinues(e, j, p + routes, pct);
    FollowsConcat(e, j, p + routes, Cleaning(j, pct) + Finish());
    assert p + (routes + (Cleaning(j, pct) + Finish())) == p + routes + (Cleaning(j, pct) + Finish());
  }

  /** Promotes may follow once the rollback of the demotes is registered. */
  lemma PromotesContinue(e: Env, j: Job, before: seq<Cmd>)
    requires RECLAIM in before
    ensures Continues(e, j, before, Each(Promote(e), Images(e, j)))
    ensures NoDelete(Each(Promote(e), Images(e, j)))
  {
  }

  lemma ReclaimContinues(e: Env, j: Job, p: seq<Cmd>)
    requires RECLAIM !in p && Collect in p && AllDone(p, Demote, Images(e, j))
    ensures Continues(e, j, p, [RECLAIM])
  {
    assert p + [RECLAIM][..0] == p;
  }

  lemma PromotesFollow(e: Env, j: Job, p: seq<Cmd>)
    requires Follows(e, j, p) && RECLAIM !in p && Collect in p && NoDelete(p) && AllDone(p, Demote, Images(e, j))
    ensures var q := p + [RECLAIM] + Each(Promote(e), Images(e, j));
      Follows(e, j, q) && NoDelete(q) && AllDone(q, Promote(e), Images(e, j))
  {
    ReclaimContinues(e, j, p);
    FollowsConcat(e, j, p, [RECLAIM]);
    var a := p + [RECLAIM];
    PromotesContinue(e, j, a);
    FollowsConcat(e, j, a, Each(Promote(e), Images(e, j)));
    EachIn(a, Promote(e), Images(e, j));
  }

  lemma CleaningContinues(e: Env, j: Job, before: seq<Cmd>, pct: real)
    requires RECLAIM in before && NoDelete(before)
    requires AllDone(before, Promote(e), Images(e, j)) && AllDone(before, Announce, Prefixes(e))
    ensures Continues(e, j, before, Cleaning(j, pct) + Finish())
  {
    var q := Cleaning(j, pct) + Finish();
    forall k | 0 <= k < |q|
      ensures Allowed(e, j, before + q[..k], q[k])
    {
      if k == 1 {
        assert q[..1] == [q[0]];
        assert q[0] in before + q[..1];
        assert AllDone(before + q[..1], Promote(e), Images(e, j));
        assert AllDone(before + q[..1], Announce, Prefixes(e));
      }
    }
  }

  lemma BgpHarmless(e: Env)
    ensures forall c | c in ColdBgp(e) :: Harmless(e, c)
    ensures forall c | c in LiveBgp(e) :: Harmless(e, c)
    ensures AllDone(ColdBgp(e), Announce, Prefixes(e)) && AllDone(LiveBgp(e), Announce, Prefixes(e))
  {
    EachIn([], Announce, Prefixes(e));
    assert [] + Each(Announce, Prefixes(e)) == Each(Announce, Prefixes(e));
  }

  /** Everything in the cold engine up to its last demote. */
  function ColdDemoted(e: Env, j: Job): seq<Cmd> {
    ColdStart(e, j) + Syncs(Images(e, j), None, 300) + Each(Demote, Images(e, j))
  }

  function ColdRoutes(e: Env, j: Job): seq<Cmd> {
    [Move(Event(Disk, 50.0))] + ColdCutover(e, j) + ColdBgp(e)
  }

  lemma ColdShape(e: Env, j: Job)
    ensures ColdProgram(e, j) == ColdDemoted(e, j) + Ending(e, j, ColdRoutes(e, j), 95.0)
  {
    hide ColdPreflight, ColdQuiesce, ColdCutover, ColdBgp, Syncs, Each, Cleaning, Finish;
  }

  lemma ColdSynced(e: Env, j: Job)
    requires !j.live
    ensures var p := ColdStart(e, j) + Syncs(Images(e, j), None, 300);
      Follows(e, j, p) && NoDelete(p) && RECLAIM !in p && Collect in p && AllChecked(p, Images(e, j)) &&
      (Guard(false) in p || Quiesced(e, j, p)) &&
      forall image | image in Images(e, j) :: Sync(image, None, 300) in p
  {
    var a := ColdStart(e, j);
    var syncs := Syncs(Images(e, j), None, 300);
    ColdStartFollows(e, j);
    HarmlessContinues(e, j, a, syncs);
    FollowsConcat(e, j, a, syncs);
    SyncsIn(a, Images(e, j), None, 300);
  }

  lemma ColdFollows(e: Env, j: Job)
    requires !j.live
    ensures Follows(e, j, ColdProgram(e, j))
  {
    var a := ColdStart(e, j) + Syncs(Images(e, j), None, 300);
    ColdSynced(e, j);
    DemotesContinue(e, j, a);
    FollowsConcat(e, j, a, Each(Demote, Images(e, j)));
    EachIn(a, Demote, Images(e, j));
    ColdRoutesHarmless(e, j);
    EndingFollows(e, j, ColdDemoted(e, j), ColdRoutes(e, j), 95.0);
    ColdShape(e, j);
  }

  lemma ColdRoutesHarmless(e: Env, j: Job)
    ensures forall c | c in ColdRoutes(e, j) :: Harmless(e, c)
    ensures AllDone(ColdRoutes(e, j), Announce, Prefixes(e))
  {
    BgpHarmless(e);
  }

  /** Everything in the live engine up to its last demote. */
  function LiveDemoted(e: Env, j: Job): seq<Cmd> {
    LiveStart(e, j) + [Move(Event(Cutover, 80.0))] + Flushes(Images(e, j))
  }

  lemma LiveShape(e: Env, j: Job)
    ensures LiveProgram(e, j) == LiveDemoted(e, j) + Ending(e, j, LiveBgp(e), 96.0)
  {
    hide LivePreflight, LiveDiskSync, LiveMemory, LiveBgp, Flushes, Each, Cleaning, Finish;
  }

  lemma LiveFollows(e: Env, j: Job)
    requires j.live
    ensures Follows(e, j, LiveProgram(e, j))
  {
    var enter := [Move(Event(Cutover, 80.0))];
    var a := LiveStart(e, j);
    LiveStartFollows(e, j);
    HarmlessContinues(e, j, a, enter);
    FollowsConcat(e, j, a, enter);
    FlushesContinue(e, j, a + enter, Images(e, j));
    FlushesAll(Images(e, j));
    FollowsConcat(e, j, a + enter, Flushes(Images(e, j)));
    BgpHarmless(e);
    EndingFollows(e, j, LiveDemoted(e, j), LiveBgp(e), 96.0);
    LiveShape(e, j);
  }

  /** Both engines keep the discipline, whatever the outside answers and whenever aborts arrive. */
  lemma EnginesFollow(e: Env, j: Job, p: seq<Cmd>)
    requires RunOf(e, j, p)
    ensures Follows(e, j, p)
  {
    if j.live {
      LiveFollows(e, j);
    } else {
      ColdFollows(e, j);
    }
    WovenFollows(e, j, p);
  }
}
