/** Where the VM's addresses are announced during and after whole runs of both engines. */
module Addresses {
  import opened Clusters
  import opened Protocol
  import opened Traces
  import opened Discipline
  import opened Engines
  import opened Primaries
  import opened Deletion
  import opened Routes
  import opened Results
  import opened Requests
  import opened Compensation

  /** The addresses a migration moves: the floating ones if the VM has any, otherwise the fixed ones. */
  function Moved(vm: VmDetails): seq<string> {
    if vm.floatingIps == [] then vm.ips else vm.floatingIps
  }

  predicate HostRoute(vm: VmDetails, prefix: string) {
    exists i | 0 <= i < |Moved(vm)| :: prefix == Moved(vm)[i] + "/32"
  }

  lemma PrefixIff(e: Env, prefix: string)
    ensures prefix in Prefixes(e) <==> HostRoute(e.vm, prefix)
  {
    assert |Prefixes(e)| == |Moved(e.vm)|;
    if prefix in Prefixes(e) {
      var i :| 0 <= i < |Prefixes(e)| && Prefixes(e)[i] == prefix;
      assert prefix == Moved(e.vm)[i] + "/32";
    }
    if HostRoute(e.vm, prefix) {
      var i :| 0 <= i < |Moved(e.vm)| && prefix == Moved(e.vm)[i] + "/32";
      assert Prefixes(e)[i] == prefix;
    }
  }

  // ---------- the calls a hand-off makes in a run ----------

  /** Everything up to and including the announces. */
  function ToAnnounced(e: Env, j: Job): seq<Cmd> {
    (if j.live then LivePreflight(e, j) + [CheckAbort] + LiveDiskSync(e, j) + LiveMemory(e, j) + LiveCutover(e, j)
     else ColdPreflight(e, j) + [CheckAbort] + ColdDisk(e, j) + ColdCutover(e, j)) +
    [Move(Event(Bgp, if j.live then 90.0 else 85.0))] + Each(Announce, Prefixes(e))
  }

  function FromWithdraws(e: Env, j: Job): seq<Cmd> {
    Tries(RemoteWithdraw(SourceClient(e)), Prefixes(e)) +
    (if j.live then [] else [Register(ReverseRoutes(Prefixes(e)))]) + Cleaning(j, CleanupPct(j)) + Finish()
  }

  lemma HandoffShape(e: Env, j: Job)
    requires Prefixes(e) != []
    ensures Program(e, j) == ToAnnounced(e, j) + FromWithdraws(e, j)
  {
    hide LivePreflight, LiveDiskSync, LiveMemory, LiveCutover, ColdPreflight, ColdDisk, ColdCutover, Cleaning, Finish,
         Each, Tries;
  }

  predicate Unwithdrawn(p: seq<Cmd>) {
    forall c | c in p :: !(c.Try? && c.verb.RemoteWithdraw?)
  }

  lemma {:induction false} FlushesUnwithdrawn(images: seq<string>)
    ensures Unwithdrawn(Flushes(images))
    decreases |images|
  {
    if images != [] {
      FlushesUnwithdrawn(images[..|images| - 1]);
    }
  }

  lemma LiveUnwithdrawn(e: Env, j: Job)
    ensures Unwithdrawn(LivePreflight(e, j)) && Unwithdrawn(LiveDiskSync(e, j)) && Unwithdrawn(LiveMemory(e, j))
    ensures Unwithdrawn(LiveCutover(e, j))
  {
    FlushesUnwithdrawn(Images(e, j));
    assert Unwithdrawn([RECLAIM] + Each(Promote(e), Images(e, j)));
    hide Flushes, Each;
  }

  lemma ColdUnwithdrawn(e: Env, j: Job)
    ensures Unwithdrawn(ColdPreflight(e, j)) && Unwithdrawn(ColdDisk(e, j)) && Unwithdrawn(ColdCutover(e, j))
  {
  }

  lemma AnnouncedFirst(e: Env, j: Job)
    ensures Unwithdrawn(ToAnnounced(e, j)) && AllDone(ToAnnounced(e, j), Announce, Prefixes(e))
  {
    LiveUnwithdrawn(e, j);
    ColdUnwithdrawn(e, j);
    EachIn([], Announce, Prefixes(e));
    assert [] + Each(Announce, Prefixes(e)) == Each(Announce, Prefixes(e));
    assert Unwithdrawn(Each(Announce, Prefixes(e)));
    hide LivePreflight, LiveDiskSync, LiveMemory, LiveCutover, ColdPreflight, ColdDisk, ColdCutover, Each;
  }

  /** In every run the source is asked to withdraw only behind the announces of all prefixes. */
  lemma WithdrawnBehind(e: Env, j: Job, p: seq<Cmd>, k: nat)
    requires RunOf(e, j, p) && k < |p| && p[k].Try? && p[k].verb.RemoteWithdraw? && Prefixes(e) != []
    ensures AllDone(p[..k], Announce, Prefixes(e))
  {
    hide ToAnnounced, FromWithdraws, Program;
    HandoffShape(e, j);
    AnnouncedFirst(e, j);
    Behind(p, ToAnnounced(e, j), FromWithdraws(e, j), k);
  }

  /**
   Which routes a run touches: it announces here, and asks the source to withdraw, nothing but the moved addresses as
   host routes; it asks through the source's stub or none; and only after all of them were announced here.
   */
  lemma RoutesAsked(e: Env, j: Job, p: seq<Cmd>, s: State, t: nat)
    requires RunOf(e, j, p) && |s.w.trace| <= t < |Run(e, p, s).s.w.trace|
    ensures var trace := Run(e, p, s).s.w.trace;
      (trace[t].verb.Announce? || trace[t].verb.RemoteWithdraw? ==> HostRoute(e.vm, trace[t].arg)) &&
      (trace[t].verb.RemoteWithdraw? ==>
        trace[t].verb.client == (if e.sourceClient then ToSource else NoClient) &&
        forall i | 0 <= i < |Moved(e.vm)| ::
          Succeeded(trace, |s.w.trace|, t, Announce, Moved(e.vm)[i] + "/32"))
  {
    var trace := Run(e, p, s).s.w.trace;
    if trace[t].verb.Announce? || trace[t].verb.RemoteWithdraw? {
      EnginesFollow(e, j, p);
      var k := Asked(e, j, p, s, t);
      PrefixIff(e, trace[t].arg);
      assert p[k].arg in Prefixes(e);
      if trace[t].verb.RemoteWithdraw? {
        WithdrawnBehind(e, j, p, k);
        hide Follows, AllowedCmd, Run, RunOf;
        AllAnnounced(e, p, s, k, trace);
      }
    }
  }

  lemma AllAnnounced(e: Env, p: seq<Cmd>, s: State, k: nat, trace: seq<Attempt>)
    requires Reaches(e, p, s, k) && AllDone(p[..k], Announce, Prefixes(e)) && At(e, p, s, k).w.trace <= trace
    ensures forall i | 0 <= i < |Moved(e.vm)| ::
      Succeeded(trace, |s.w.trace|, |At(e, p, s, k).w.trace|, Announce, Moved(e.vm)[i] + "/32")
  {
    var short := At(e, p, s, k).w.trace;
    hide Exec;
    AllCompleted(e, p, s, k, Announce, Prefixes(e));
    assert |Prefixes(e)| == |Moved(e.vm)|;
    forall i | 0 <= i < |Moved(e.vm)|
      ensures Succeeded(trace, |s.w.trace|, |short|, Announce, Moved(e.vm)[i] + "/32")
    {
      assert Prefixes(e)[i] == Moved(e.vm)[i] + "/32";
      MadeBy(short, trace, |s.w.trace|, |short|, Announce, Prefixes(e)[i]);
    }
  }

  // ---------- what the calls do to the announcements ----------

  /** The call takes a prefix off the destination's announcements. */
  predicate Unannounces(a: Attempt, prefix: string) {
    a.arg == prefix && a.reply.Accepted? && (a.verb.Withdraw? || (a.verb.RemoteWithdraw? && !a.verb.client.ToSource?))
  }

  /** Each call has the reply the outside gives at its tick. */
  predicate Replied(e: Env, from: nat, calls: seq<Attempt>) {
    forall i | 0 <= i < |calls| :: calls[i].reply == ReplyTo(e, from + i, calls[i].verb)
  }

  lemma RepliedPart(e: Env, from: nat, calls: seq<Attempt>, m: nat, n: nat)
    requires Replied(e, from, calls) && m <= n <= |calls|
    ensures Replied(e, from + m, calls[m..n])
  {
    forall i | 0 <= i < |calls[m..n]|
      ensures calls[m..n][i].reply == ReplyTo(e, from + m + i, calls[m..n][i].verb)
    {
      assert calls[m..n][i] == calls[m + i];
    }
  }

  /** What is announced stays so until an accepted withdraw, here or at the source. */
  lemma {:induction false} AnnouncedStays(e: Env, w: World, calls: seq<Attempt>, prefix: string)
    requires Replied(e, |w.trace|, calls)
    ensures var r := Replay(e, w, calls);
      (prefix in w.dstRoutes && (forall a | a in calls :: !Unannounces(a, prefix)) ==> prefix in r.dstRoutes) &&
      (prefix in w.srcRoutes && Attempt(RemoteWithdraw(ToSource), prefix, Accepted) !in calls ==> prefix in r.srcRoutes)
    decreases |calls|
  {
    if calls != [] {
      var w1 := After(e, w, calls[0].verb, calls[0].arg);
      assert calls[0] in calls && forall a | a in calls[1..] :: a in calls;
      RepliedPart(e, |w.trace|, calls, 1, |calls|);
      assert calls[1..|calls|] == calls[1..];
      AnnouncedStays(e, w1, calls[1..], prefix);
    }
  }

  lemma CallReplies(e: Env, w0: World, w1: World)
    requires Extends(e, w0, w1)
    ensures Replied(e, |w0.trace|, New(w0, w1))
  {
    var calls := New(w0, w1);
    ReplayTrace(e, w0, calls);
    forall i | 0 <= i < |calls|
      ensures calls[i].reply == ReplyTo(e, |w0.trace| + i, calls[i].verb)
    {
      assert w1.trace[|w0.trace| + i] == calls[i];
    }
  }

  /** If a prefix was announced by one call and not taken off by a later one, it is announced at the end. */
  lemma AnnouncedSince(e: Env, w: World, calls: seq<Attempt>, q: nat, prefix: string)
    requires Replied(e, |w.trace|, calls)
    requires q < |calls| && calls[q] == Attempt(Announce, prefix, Accepted)
    requires forall a | a in calls :: !Unannounces(a, prefix)
    ensures prefix in Replay(e, w, calls).dstRoutes
  {
    var a, b := calls[..q], calls[q + 1..|calls|];
    var w0 := Replay(e, w, a);
    ReplayTrace(e, w, a);
    var w1 := After(e, w0, Announce, prefix);
    AnnouncedNow(e, w0, prefix, calls[q].reply);
    RepliedPart(e, |w.trace|, calls, q + 1, |calls|);
    assert forall x | x in b :: x in calls;
    hide Replied, ReplyTo, Unannounces, After, Effect;
    AnnouncedStays(e, w1, b, prefix);
    ReplayAround(e, w, calls, q);
  }

  lemma AnnouncedNow(e: Env, w: World, prefix: string, reply: Reply)
    requires reply.Accepted? && reply == ReplyTo(e, |w.trace|, Announce)
    ensures var w1 := After(e, w, Announce, prefix); prefix in w1.dstRoutes && |w1.trace| == |w.trace| + 1
  {
  }

  lemma ReplayAround(e: Env, w: World, calls: seq<Attempt>, q: nat)
    requires q < |calls|
    ensures Replay(e, w, calls) ==
            Replay(e, After(e, Replay(e, w, calls[..q]), calls[q].verb, calls[q].arg), calls[q + 1..|calls|])
  {
    var b := [calls[q]] + calls[q + 1..|calls|];
    assert calls == calls[..q] + b;
    ReplayConcat(e, w, calls[..q], b);
    assert b[1..] == calls[q + 1..|calls|];
  }

  // ---------- make before break, over whole runs ----------

  /** An accepted withdrawal at the source comes after an accepted announce at the destination. */
  lemma AnnouncedBeforeWithdrawn(e: Env, j: Job, p: seq<Cmd>, s: State, i: nat, prefix: string) returns (q: nat)
    requires RunOf(e, j, p) && i < |New(s.w, Run(e, p, s).s.w)|
    requires New(s.w, Run(e, p, s).s.w)[i] == Attempt(RemoteWithdraw(ToSource), prefix, Accepted)
    ensures q < i && New(s.w, Run(e, p, s).s.w)[q] == Attempt(Announce, prefix, Accepted)
  {
    var trace := Run(e, p, s).s.w.trace;
    var t := |s.w.trace| + i;
    RunReplaysItsTrace(e, p, s);
    hide Run, Extends, RunOf;
    RoutesAsked(e, j, p, s, t);
    var n :| 0 <= n < |Moved(e.vm)| && prefix == Moved(e.vm)[n] + "/32";
    var u :| |s.w.trace| <= u < t && trace[u] == Attempt(Announce, prefix, Accepted);
    q := u - |s.w.trace|;
  }

  /** Nothing but a rollback's withdraw takes a prefix off the destination's announcements. */
  lemma OnlyWithdraws(e: Env, j: Job, p: seq<Cmd>, s: State, prefix: string)
    requires RunOf(e, j, p)
    ensures forall a | a in New(s.w, Run(e, p, s).s.w) && Unannounces(a, prefix) ::
      a == Attempt(Withdraw, prefix, Accepted)
  {
    var calls := New(s.w, Run(e, p, s).s.w);
    RunReplaysItsTrace(e, p, s);
    CallReplies(e, s.w, Run(e, p, s).s.w);
    forall a | a in calls && Unannounces(a, prefix)
      ensures a == Attempt(Withdraw, prefix, Accepted)
    {
      var i :| 0 <= i < |calls| && calls[i] == a;
      if a.verb.RemoteWithdraw? {
        RoutesAsked(e, j, p, s, |s.w.trace| + i);
      }
    }
  }

  /**
   Make before break over a whole run of either engine, with any aborts and its failure path: a prefix announced at the
   source at the start is, after every single call, announced on some side, unless a rollback here has withdrawn it.
   */
  lemma EngineMakesBeforeBreaking(e: Env, j: Job, p: seq<Cmd>, s: State, n: nat, prefix: string)
    requires RunOf(e, j, p) && prefix in s.w.srcRoutes && n <= |New(s.w, Run(e, p, s).s.w)|
    requires Attempt(Withdraw, prefix, Accepted) !in New(s.w, Run(e, p, s).s.w)[..n]
    ensures var w := Replay(e, s.w, New(s.w, Run(e, p, s).s.w)[..n]);
      prefix in w.srcRoutes || prefix in w.dstRoutes
  {
    hide Run, RunOf, Unannounces, Replied, Replay;
    var all := New(s.w, Run(e, p, s).s.w);
    var calls := all[0..n];
    RunReplaysItsTrace(e, p, s);
    CallReplies(e, s.w, Run(e, p, s).s.w);
    RepliedPart(e, |s.w.trace|, all, 0, n);
    OnlyWithdraws(e, j, p, s, prefix);
    var gone := Attempt(RemoteWithdraw(ToSource), prefix, Accepted);
    assert calls == all[..n] && forall a | a in calls :: a in all;
    if gone in calls {
      var i :| 0 <= i < |calls| && calls[i] == gone;
      var q := AnnouncedBeforeWithdrawn(e, j, p, s, i, prefix);
      hide New;
      AnnouncedSince(e, s.w, calls, q, prefix);
    } else {
      AnnouncedStays(e, s.w, calls, prefix);
    }
  }

  /** A live run has no rollback of routes, so nothing it does withdraws here. */
  lemma LiveNeverWithdraws(e: Env, j: Job, p: seq<Cmd>, s: State)
    requires RunOf(e, j, p) && j.live && Fresh(j, s)
    ensures forall a | a in New(s.w, Run(e, p, s).s.w) :: a.verb != Withdraw
  {
    var calls := New(s.w, Run(e, p, s).s.w);
    RunReplaysItsTrace(e, p, s);
    forall a | a in calls
      ensures a.verb != Withdraw
    {
      var i :| 0 <= i < |calls| && calls[i] == a;
      LiveNoWithdrawAt(e, j, p, s, |s.w.trace| + i);
      assert calls[i] == Run(e, p, s).s.w.trace[|s.w.trace| + i];
    }
  }

  lemma LiveNoWithdrawAt(e: Env, j: Job, p: seq<Cmd>, s: State, t: nat)
    requires RunOf(e, j, p) && j.live && Fresh(j, s) && |s.w.trace| <= t < |Run(e, p, s).s.w.trace|
    ensures Run(e, p, s).s.w.trace[t].verb != Withdraw
  {
    var x := Exec(e, p, s);
    RunReplaysItsTrace(e, p, s);
    if t < |x.s.w.trace| {
      LiveNoWithdrawIn(e, j, p, s, t);
    } else {
      assert p[..|p|] == p;
      var k := StopExists(e, p, s, |p|);
      FailingRunUndoes(e, p, s, k);
      var late := New(x.s.w, Run(e, p, s).s.w);
      hide RunOf, Exec, Step, Run;
      LiveFailureNoWithdraw(e, j, p, k, x.s.c.images, late);
      assert late[t - |x.s.w.trace|] == Run(e, p, s).s.w.trace[t];
    }
  }

  lemma LiveNoWithdrawIn(e: Env, j: Job, p: seq<Cmd>, s: State, t: nat)
    requires RunOf(e, j, p) && j.live && Fresh(j, s) && |s.w.trace| <= t < |Exec(e, p, s).s.w.trace|
    ensures Exec(e, p, s).s.w.trace[t].verb != Withdraw
  {
    var k := Locate(e, p, s, t);
    var f := At(e, p, s, k);
    var w1 := Step(e, p[k], f).s.w;
    StepGrows(e, p[k], f);
    NewHolds(e, f.w, w1, verb => Issues(p[k], verb));
    EnginesFollow(e, j, p);
    NoFailedGuard(e, p, s, k);
    assert AllowedCmd(e, j, p[..k], p[k]);
    FailingRunUndoes(e, p, s, k);
    assert w1.trace[t] == Exec(e, p, s).s.w.trace[t];
    OnlyAbortsWithdraw(e, j, p[..k], p[k]);
    hide Follows, RunOf, Exec, Step, Run, AllowedCmd, Issues, FailurePath;
    if p[k].Interrupt? {
      LiveFailureNoWithdraw(e, j, p, k, f.c.images, New(f.w, w1));
      assert New(f.w, w1)[t - |f.w.trace|] == w1.trace[t];
    }
  }

  lemma OnlyAbortsWithdraw(e: Env, j: Job, before: seq<Cmd>, c: Cmd)
    requires AllowedCmd(e, j, before, c)
    ensures !c.Interrupt? ==> !Issues(c, Withdraw)
  {
  }

  lemma LiveFailureNoWithdraw(e: Env, j: Job, p: seq<Cmd>, k: nat, images: seq<string>, calls: seq<Attempt>)
    requires RunOf(e, j, p) && j.live && k <= |p| && FailurePath(e, Registered(p[..k]), images, calls)
    ensures forall i | 0 <= i < |calls| :: calls[i].verb != Withdraw
  {
    RunRegisters(e, j, p, k);
    StackHasRoutes(e, j);
    NoRoutesIn(Registered(p[..k]), Stack(e, j));
    hide RunOf, Registered, Stack;
    if !calls[0].reply.Raised? {
      UndoneHas(e, Registered(p[..k]), images, calls[1..]);
      forall i | 0 < i < |calls|
        ensures calls[i].verb != Withdraw
      {
        assert calls[1..][i - 1] == calls[i];
      }
    }
  }

  /** So in a live run every prefix stays announced somewhere after every call, whatever happens. */
  lemma LiveMakesBeforeBreaking(e: Env, j: Job, p: seq<Cmd>, s: State, n: nat, prefix: string)
    requires RunOf(e, j, p) && j.live && Fresh(j, s)
    requires prefix in s.w.srcRoutes && n <= |New(s.w, Run(e, p, s).s.w)|
    ensures var w := Replay(e, s.w, New(s.w, Run(e, p, s).s.w)[..n]);
      prefix in w.srcRoutes || prefix in w.dstRoutes
  {
    LiveNeverWithdraws(e, j, p, s);
    var calls := New(s.w, Run(e, p, s).s.w);
    hide Run, RunOf, New;
    assert forall a | a in calls[..n] :: a in calls;
    EngineMakesBeforeBreaking(e, j, p, s, n, prefix);
  }

  // ---------- completed runs ----------

  lemma WithdrawsPlanned(e: Env, j: Job)
    ensures forall i | 0 <= i < |Prefixes(e)| :: Try(RemoteWithdraw(SourceClient(e)), Prefixes(e)[i]) in Program(e, j)
    ensures AllDone(Program(e, j), Announce, Prefixes(e))
  {
    if Prefixes(e) != [] {
      AnnouncedFirst(e, j);
      hide Program, ToAnnounced, Cleaning, Finish;
      HandoffShape(e, j);
      forall i | 0 <= i < |Prefixes(e)|
        ensures Try(RemoteWithdraw(SourceClient(e)), Prefixes(e)[i]) in Program(e, j)
      {
        var tries := Tries(RemoteWithdraw(SourceClient(e)), Prefixes(e));
        assert tries[i] in tries;
      }
    }
  }

  lemma TriedCall(e: Env, p: seq<Cmd>, s: State, i: nat) returns (a: Attempt)
    requires Exec(e, p, s).Ran? && i < |p| && p[i].Try?
    ensures a in New(s.w, Exec(e, p, s).s.w) && a.verb == p[i].verb && a.arg == p[i].arg
  {
    assert p[..|p|] == p;
    ReachPrevious(e, p, s, i, |p|);
    ReachedExtends(e, p, s, 0, i);
    ReachedExtends(e, p, s, i + 1, |p|);
    assert p[..0] == [];
    var t := |At(e, p, s, i).w.trace|;
    var trace := Exec(e, p, s).s.w.trace;
    assert trace[t] == At(e, p, s, i + 1).w.trace[t];
    a := trace[t];
    assert New(s.w, Exec(e, p, s).s.w)[t - |s.w.trace|] == a;
  }

  predicate Asks(calls: seq<Attempt>, verb: Verb, arg: string) {
    exists a | a in calls :: a.verb == verb && a.arg == arg
  }

  /**
   A completed run, aborts included, has asked the source to withdraw every moved address, through its stub or through
   none. The source has then lost exactly what it agreed to withdraw: all of them if it agreed to all, none without a
   stub.
   */
  lemma CompletedWithdraws(e: Env, j: Job, p: seq<Cmd>, s: State)
    requires RunOf(e, j, p) && Exec(e, p, s).Ran?
    ensures var w := Exec(e, p, s).s.w;
      var calls := New(s.w, w);
      var stub := if e.sourceClient then ToSource else NoClient;
      (forall i | 0 <= i < |Moved(e.vm)| :: Asks(calls, RemoteWithdraw(stub), Moved(e.vm)[i] + "/32")) &&
      (!e.sourceClient ==> w.srcRoutes == s.w.srcRoutes) &&
      (e.sourceClient && (forall a | a in calls && a.verb.RemoteWithdraw? :: a.reply.Accepted?) ==>
        forall x :: x in w.srcRoutes <==> x in s.w.srcRoutes && !HostRoute(e.vm, x))
  {
    var w := Exec(e, p, s).s.w;
    var calls := New(s.w, w);
    assert Run(e, p, s).s == Exec(e, p, s).s;
    EnginesFollow(e, j, p);
    SourceRoutesOnlyShrink(e, j, p, s);
    ExecExtends(e, p, s);
    CallReplies(e, s.w, w);
    hide Follows, Exec, Run, HostRoute, Asks, AcceptedArgs, Replied;
    forall i | 0 <= i < |Moved(e.vm)|
      ensures Asks(calls, RemoteWithdraw(SourceClient(e)), Moved(e.vm)[i] + "/32")
    {
      WithdrawAsked(e, j, p, s, i);
    }
    forall a | a in calls && a.verb.RemoteWithdraw?
      ensures HostRoute(e.vm, a.arg) && a.verb.client == SourceClient(e)
    {
      var i :| 0 <= i < |calls| && calls[i] == a;
      RoutesAsked(e, j, p, s, |s.w.trace| + i);
    }
    LostExactly(e, calls, s.w.srcRoutes, w.srcRoutes);
  }

  lemma WithdrawAsked(e: Env, j: Job, p: seq<Cmd>, s: State, i: nat)
    requires RunOf(e, j, p) && Exec(e, p, s).Ran? && i < |Moved(e.vm)|
    ensures Asks(New(s.w, Exec(e, p, s).s.w), RemoteWithdraw(SourceClient(e)), Moved(e.vm)[i] + "/32")
  {
    WithdrawsPlanned(e, j);
    StripMembers(p);
    assert |Prefixes(e)| == |Moved(e.vm)| && Prefixes(e)[i] == Moved(e.vm)[i] + "/32";
    hide Program, Strip, Exec, Prefixes;
    var k :| 0 <= k < |p| && p[k] == Try(RemoteWithdraw(SourceClient(e)), Prefixes(e)[i]);
    var a := TriedCall(e, p, s, k);
  }

  lemma LostExactly(e: Env, calls: seq<Attempt>, src0: set<string>, src: set<string>)
    requires src == src0 - AcceptedArgs(calls, RemoteWithdraw(ToSource))
    requires forall a | a in calls && a.verb.RemoteWithdraw? ::
      HostRoute(e.vm, a.arg) && a.verb.client == SourceClient(e)
    requires forall i | 0 <= i < |Moved(e.vm)| :: Asks(calls, RemoteWithdraw(SourceClient(e)), Moved(e.vm)[i] + "/32")
    ensures !e.sourceClient ==> src == src0
    ensures e.sourceClient && (forall a | a in calls && a.verb.RemoteWithdraw? :: a.reply.Accepted?) ==>
      forall x :: x in src <==> x in src0 && !HostRoute(e.vm, x)
  {
    if e.sourceClient && forall a | a in calls && a.verb.RemoteWithdraw? :: a.reply.Accepted? {
      forall x
        ensures x in AcceptedArgs(calls, RemoteWithdraw(ToSource)) <==> HostRoute(e.vm, x)
      {
        if HostRoute(e.vm, x) {
          var i :| 0 <= i < |Moved(e.vm)| && x == Moved(e.vm)[i] + "/32";
          var a :| a in calls && a.verb == RemoteWithdraw(SourceClient(e)) && a.arg == Moved(e.vm)[i] + "/32";
        }
      }
    }
    if !e.sourceClient {
      AcceptedNone(calls, RemoteWithdraw(ToSource));
    }
  }

  /** A call that takes nothing off the destination's announcements and announces there only directly. */
  predicate Forward(verb: Verb) {
    !verb.Withdraw? && !verb.RemoteAnnounce? && (verb.RemoteWithdraw? ==> !verb.client.ToDest?)
  }

  lemma AnnounceOne(e: Env, w: World, a: Attempt)
    requires Forward(a.verb) && a.reply == ReplyTo(e, |w.trace|, a.verb)
    ensures After(e, w, a.verb, a.arg).dstRoutes == w.dstRoutes + AcceptedArgs([a], Announce)
    ensures |After(e, w, a.verb, a.arg).trace| == |w.trace| + 1
  {
    AcceptedOne(a, Announce);
    hide AcceptedArgs;
  }

  /** What calls that only announce do to the destination's announcements. */
  lemma {:induction false} AnnouncesAdd(e: Env, w: World, calls: seq<Attempt>)
    requires Replied(e, |w.trace|, calls) && forall a | a in calls :: Forward(a.verb)
    ensures Replay(e, w, calls).dstRoutes == w.dstRoutes + AcceptedArgs(calls, Announce)
    decreases |calls|
  {
    if calls != [] {
      var w1 := After(e, w, calls[0].verb, calls[0].arg);
      assert calls[0] in calls && forall a | a in calls[1..] :: a in calls;
      AnnounceOne(e, w, calls[0]);
      RepliedPart(e, |w.trace|, calls, 1, |calls|);
      assert calls[1..|calls|] == calls[1..];
      hide After, ReplyTo, Forward, Replied, AcceptedArgs;
      AnnouncesAdd(e, w1, calls[1..]);
      AcceptedConcat([calls[0]], calls[1..], Announce);
      assert calls == [calls[0]] + calls[1..];
    }
  }

  /** A completed run without aborts adds to the destination's announcements exactly the moved addresses. */
  lemma CompletedAnnounces(e: Env, j: Job, p: seq<Cmd>, s: State)
    requires RunOf(e, j, p) && Exec(e, p, s).Ran? && Interrupt !in p
    ensures forall x :: x in Exec(e, p, s).s.w.dstRoutes <==> x in s.w.dstRoutes || HostRoute(e.vm, x)
  {
    var w := Exec(e, p, s).s.w;
    var calls := New(s.w, w);
    assert Run(e, p, s).s == Exec(e, p, s).s;
    ForwardCalls(e, j, p, s);
    ExecExtends(e, p, s);
    CallReplies(e, s.w, w);
    hide Exec, Run, RunOf, HostRoute, Replied;
    AnnouncesAdd(e, s.w, calls);
    forall x
      ensures x in AcceptedArgs(calls, Announce) <==> HostRoute(e.vm, x)
    {
      AcceptedIff(calls, Announce, x);
      if x in AcceptedArgs(calls, Announce) {
        var i :| 0 <= i < |calls| && calls[i] == Attempt(Announce, x, Accepted);
        RoutesAsked(e, j, p, s, |s.w.trace| + i);
      }
      if HostRoute(e.vm, x) {
        AnnouncePlanned(e, j, p, s, x);
      }
    }
  }

  lemma AnnouncePlanned(e: Env, j: Job, p: seq<Cmd>, s: State, x: string)
    requires RunOf(e, j, p) && Exec(e, p, s).Ran? && HostRoute(e.vm, x)
    ensures Attempt(Announce, x, Accepted) in New(s.w, Exec(e, p, s).s.w)
  {
    PrefixIff(e, x);
    AnnounceIn(e, j, p, x);
    hide RunOf, Exec, HostRoute, Prefixes;
    var k :| 0 <= k < |p| && p[k] == Do(Announce, x);
    assert p[..|p|] == p;
    var t := CompletedTick(e, p, s, k, |p|);
    var w := Exec(e, p, s).s.w;
    assert New(s.w, w)[t - |s.w.trace|] == w.trace[t];
  }

  lemma AnnounceIn(e: Env, j: Job, p: seq<Cmd>, x: string)
    requires RunOf(e, j, p) && x in Prefixes(e)
    ensures Do(Announce, x) in p
  {
    WithdrawsPlanned(e, j);
    StripMembers(p);
    hide Program, Strip, Prefixes;
    var i :| 0 <= i < |Prefixes(e)| && Prefixes(e)[i] == x;
    assert Do(Announce, Prefixes(e)[i]) in Program(e, j);
  }

  lemma ForwardCalls(e: Env, j: Job, p: seq<Cmd>, s: State)
    requires RunOf(e, j, p) && Exec(e, p, s).Ran? && Interrupt !in p
    ensures forall a | a in New(s.w, Exec(e, p, s).s.w) :: Forward(a.verb)
  {
    EnginesFollow(e, j, p);
    assert p[..|p|] == p;
    NoFailedGuard(e, p, s, |p|);
    hide RunOf, Exec, Forward, AllowedCmd, Issues;
    forall c, v | c in p && Issues(c, v)
      ensures Forward(v)
    {
      var k :| 0 <= k < |p| && p[k] == c;
      assert Guard(false) !in p[..k];
      assert AllowedCmd(e, j, p[..k], p[k]);
      AllowedForward(e, j, p[..k], c, v);
    }
    ExecIssues(e, p, s, Forward);
    var calls := New(s.w, Exec(e, p, s).s.w);
    assert forall i | 0 <= i < |calls| :: Forward(calls[i].verb);
  }

  lemma AllowedForward(e: Env, j: Job, before: seq<Cmd>, c: Cmd, verb: Verb)
    requires AllowedCmd(e, j, before, c) && Issues(c, verb) && !c.Interrupt?
    ensures Forward(verb)
  {
  }
}
