/** The call trace decides the world: whatever ran, replaying the calls it made gives the same world. */
module Traces {
  import opened Clusters
  import opened Protocol

  /** The world after making the calls named by `calls`, whatever replies they list. */
  function Replay(e: Env, w: World, calls: seq<Attempt>): World
    decreases |calls|
  {
    if calls == [] then w else Replay(e, After(e, w, calls[0].verb, calls[0].arg), calls[1..])
  }

  /** The calls made since `w0`. */
  function New(w0: World, w1: World): seq<Attempt> {
    if |w0.trace| <= |w1.trace| then w1.trace[|w0.trace|..] else []
  }

  predicate Extends(e: Env, w0: World, w1: World) {
    w0.trace <= w1.trace && w1 == Replay(e, w0, New(w0, w1))
  }

  lemma {:induction false} ReplayTrace(e: Env, w: World, calls: seq<Attempt>)
    ensures var r := Replay(e, w, calls);
      w.trace <= r.trace && |r.trace| == |w.trace| + |calls| &&
      forall i | 0 <= i < |calls| ::
        var t := |w.trace| + i;
        r.trace[t].verb == calls[i].verb && r.trace[t].arg == calls[i].arg &&
        r.trace[t].reply == ReplyTo(e, t, calls[i].verb)
    decreases |calls|
  {
    if calls != [] {
      var w1 := After(e, w, calls[0].verb, calls[0].arg);
      ReplayTrace(e, w1, calls[1..]);
      var r := Replay(e, w, calls);
      forall i | 0 <= i < |calls|
        ensures var t := |w.trace| + i;
          r.trace[t].verb == calls[i].verb && r.trace[t].arg == calls[i].arg &&
          r.trace[t].reply == ReplyTo(e, t, calls[i].verb)
      {
        if i > 0 {
          assert calls[i] == calls[1..][i - 1];
        } else {
          assert w1.trace[|w.trace|] == Attempt(calls[0].verb, calls[0].arg, ReplyTo(e, |w.trace|, calls[0].verb));
        }
      }
    }
  }

  lemma {:induction false} ReplayConcat(e: Env, w: World, a: seq<Attempt>, b: seq<Attempt>)
    ensures Replay(e, w, a + b) == Replay(e, Replay(e, w, a), b)
    decreases |a|
  {
    if a == [] {
      assert a + b == b;
    } else {
      assert (a + b)[1..] == a[1..] + b;
      ReplayConcat(e, After(e, w, a[0].verb, a[0].arg), a[1..], b);
    }
  }

  lemma ExtendsSelf(e: Env, w: World)
    ensures Extends(e, w, w)
  {
    assert New(w, w) == [];
  }

  lemma ExtendsTrans(e: Env, w0: World, w1: World, w2: World)
    requires Extends(e, w0, w1) && Extends(e, w1, w2)
    ensures Extends(e, w0, w2) && New(w0, w2) == New(w0, w1) + New(w1, w2)
  {
    assert New(w0, w2) == New(w0, w1) + New(w1, w2);
    ReplayConcat(e, w0, New(w0, w1), New(w1, w2));
  }

  lemma AfterExtends(e: Env, w: World, verb: Verb, arg: string)
    ensures Extends(e, w, After(e, w, verb, arg))
    ensures New(w, After(e, w, verb, arg)) == [Attempt(verb, arg, ReplyTo(e, |w.trace|, verb))]
  {
    var w1 := After(e, w, verb, arg);
    var a := Attempt(verb, arg, ReplyTo(e, |w.trace|, verb));
    assert New(w, w1) == [a];
    assert [a][1..] == [];
    assert Replay(e, w, [a]) == Replay(e, w1, []) == w1;
  }

  // ---------- which calls a command can make ----------

  /** What a rollback may call. The stub it announces through is never the source's. */
  predicate RollbackVerb(verb: Verb) {
    verb.MarkFailed? || verb.ForcePromote? || verb.Withdraw? || verb.AbortJob? ||
    (verb.RemoteAnnounce? && !verb.client.ToSource?)
  }

  /** The verbs command `c` may call. */
  predicate Issues(c: Cmd, verb: Verb) {
    match c
    case Do(v, _) => verb == v
    case Try(v, _) => verb == v
    case Move(event) => verb == Enter(event)
    case Observe(event) => verb == Enter(event)
    case Check(_) => verb.ImageInfo? || verb.MirrorStatus?
    case Sync(_, _, _) => verb.MirrorStatus?
    case AwaitVm(_, _) => verb.GetServer?
    case Copy(_) => verb.GetVolume? || verb.CreateVolume?
    case Interrupt => RollbackVerb(verb)
    case _ => false
  }

  /** `w1` comes from `w0` by calls whose verbs all satisfy `ok`. */
  predicate Grows(e: Env, w0: World, w1: World, ok: Verb -> bool) {
    Extends(e, w0, w1) && forall i | 0 <= i < |New(w0, w1)| :: ok(New(w0, w1)[i].verb)
  }

  lemma GrowsTrans(e: Env, w0: World, w1: World, w2: World, ok: Verb -> bool)
    requires Grows(e, w0, w1, ok) && Grows(e, w1, w2, ok)
    ensures Grows(e, w0, w2, ok)
  {
    ExtendsTrans(e, w0, w1, w2);
  }

  lemma AfterGrows(e: Env, w: World, verb: Verb, arg: string, ok: Verb -> bool)
    requires ok(verb)
    ensures Grows(e, w, After(e, w, verb, arg), ok)
  {
    AfterExtends(e, w, verb, arg);
  }

  lemma {:induction false} PollSyncGrows(e: Env, image: string, limit: int, polls: nat, w: World, ok: Verb -> bool)
    requires ok(MirrorStatus)
    ensures Grows(e, w, PollSync(e, image, limit, polls, w).w, ok)
    decreases polls
  {
    ExtendsSelf(e, w);
    if polls > 0 {
      var w1 := After(e, w, MirrorStatus, image);
      AfterGrows(e, w, MirrorStatus, image, ok);
      if PollSync(e, image, limit, polls, w).w != w1 {
        PollSyncGrows(e, image, limit, polls - 1, w1, ok);
        GrowsTrans(e, w, w1, PollSync(e, image, limit, polls - 1, w1).w, ok);
      }
    }
  }

  lemma {:induction false} PollVmGrows(e: Env, id: string, target: VmStatus, polls: nat, w: World, ok: Verb -> bool)
    requires ok(GetServer)
    ensures Grows(e, w, PollVm(e, id, target, polls, w).w, ok)
    decreases polls
  {
    ExtendsSelf(e, w);
    if polls > 0 {
      var w1 := After(e, w, GetServer, id);
      AfterGrows(e, w, GetServer, id, ok);
      if PollVm(e, id, target, polls, w).w != w1 {
        PollVmGrows(e, id, target, polls - 1, w1, ok);
        GrowsTrans(e, w, w1, PollVm(e, id, target, polls - 1, w1).w, ok);
      }
    }
  }

  lemma {:induction false} ReclaimGrows(e: Env, images: seq<string>, w: World, ok: Verb -> bool)
    requires ok(ForcePromote)
    ensures Grows(e, w, Reclaim(e, images, w), ok)
    decreases |images|
  {
    ExtendsSelf(e, w);
    if images != [] {
      var w1 := After(e, w, ForcePromote, images[0]);
      AfterGrows(e, w, ForcePromote, images[0], ok);
      ReclaimGrows(e, images[1..], w1, ok);
      GrowsTrans(e, w, w1, Reclaim(e, images[1..], w1), ok);
    }
  }

  lemma {:induction false} ReverseGrows(e: Env, prefixes: seq<string>, client: Client, w: World, ok: Verb -> bool)
    requires ok(Withdraw) && ok(RemoteAnnounce(client))
    ensures Grows(e, w, ReverseAll(e, prefixes, client, w).w, ok)
    decreases |prefixes|
  {
    ExtendsSelf(e, w);
    if prefixes != [] {
      var w1 := After(e, w, Withdraw, prefixes[0]);
      AfterGrows(e, w, Withdraw, prefixes[0], ok);
      if !ReplyTo(e, |w.trace|, Withdraw).Raised? {
        var w2 := After(e, w1, RemoteAnnounce(client), prefixes[0]);
        AfterGrows(e, w1, RemoteAnnounce(client), prefixes[0], ok);
        GrowsTrans(e, w, w1, w2, ok);
        ReverseGrows(e, prefixes[1..], client, w2, ok);
        GrowsTrans(e, w, w2, ReverseAll(e, prefixes[1..], client, w2).w, ok);
      }
    }
  }

  lemma RunHandlerGrows(e: Env, h: Handler, s: State)
    ensures Grows(e, s.w, RunHandler(e, h, s).w, RollbackVerb)
  {
    match h
    case ReclaimDisks => ReclaimGrows(e, s.c.images, s.w, RollbackVerb);
    case ReverseRoutes(prefixes) => ReverseGrows(e, prefixes, DestClient(e), s.w, RollbackVerb);
    case AbortTunnel => AfterGrows(e, s.w, AbortJob, "", RollbackVerb);
  }

  lemma {:induction false} UnwindGrows(e: Env, stack: seq<Handler>, s: State)
    ensures Grows(e, s.w, Unwind(e, stack, s).w, RollbackVerb)
    decreases |stack|
  {
    ExtendsSelf(e, s.w);
    if stack != [] {
      var s1 := RunHandler(e, stack[|stack| - 1], s);
      RunHandlerGrows(e, stack[|stack| - 1], s);
      UnwindGrows(e, stack[..|stack| - 1], s1);
      GrowsTrans(e, s.w, s1.w, Unwind(e, stack[..|stack| - 1], s1).w, RollbackVerb);
    }
  }

  lemma FailGrows(e: Env, s: State)
    ensures Grows(e, s.w, Fail(e, s).s.w, RollbackVerb)
  {
    var s1 := Invoke(e, s, MarkFailed, "");
    AfterGrows(e, s.w, MarkFailed, "", RollbackVerb);
    if !Raises(e, s, MarkFailed) {
      UnwindGrows(e, s1.c.stack, s1);
      GrowsTrans(e, s.w, s1.w, Unwind(e, s1.c.stack, s1).w, RollbackVerb);
    }
  }

  lemma CheckGrows(e: Env, image: string, s: State, ok: Verb -> bool)
    requires ok(ImageInfo) && ok(MirrorStatus)
    ensures Grows(e, s.w, CheckImage(e, s, image).s.w, ok)
  {
    var w1 := After(e, s.w, ImageInfo, image);
    AfterGrows(e, s.w, ImageInfo, image, ok);
    AfterGrows(e, w1, MirrorStatus, image, ok);
    GrowsTrans(e, s.w, w1, After(e, w1, MirrorStatus, image), ok);
  }

  lemma CopyGrows(e: Env, image: string, s: State, ok: Verb -> bool)
    requires ok(GetVolume) && forall n: nat :: ok(CreateVolume(n))
    ensures Grows(e, s.w, CopyImage(e, s, image).s.w, ok)
  {
    match MatchVolume(e.vm.volumeIds, image)
    case None => AfterGrows(e, s.w, CreateVolume(DEFAULT_SIZE), image, ok);
    case Some(id) =>
      var w1 := After(e, s.w, GetVolume, id);
      var sizeGb := if Raises(e, s, GetVolume) then DEFAULT_SIZE else e.sizeGb(id);
      AfterGrows(e, s.w, GetVolume, id, ok);
      AfterGrows(e, w1, CreateVolume(sizeGb), image, ok);
      GrowsTrans(e, s.w, w1, After(e, w1, CreateVolume(sizeGb), image), ok);
  }

  lemma GrowsMore(e: Env, w0: World, w1: World, ok: Verb -> bool, more: Verb -> bool)
    requires Grows(e, w0, w1, ok) && forall v :: ok(v) ==> more(v)
    ensures Grows(e, w0, w1, more)
  {
  }

  /** Every command only ever adds calls, and only calls of its own kind. */
  lemma StepGrows(e: Env, c: Cmd, s: State)
    ensures Grows(e, s.w, Step(e, c, s).s.w, verb => Issues(c, verb))
  {
    var ok := verb => Issues(c, verb);
    match c
    case Do(verb, arg) => AfterGrows(e, s.w, verb, arg, ok);
    case Try(verb, arg) => AfterGrows(e, s.w, verb, arg, ok);
    case Move(event) => AfterGrows(e, s.w, Enter(event), "", ok);
    case Observe(event) => AfterGrows(e, s.w, Enter(event), "", ok);
    case Check(image) => CheckGrows(e, image, s, ok);
    case Sync(image, limit, timeout) =>
      PollSyncGrows(e, image, Limit(e, limit), Polls(timeout, SYNC_INTERVAL), s.w, ok);
    case AwaitVm(id, target) => PollVmGrows(e, id, target, Polls(VM_TIMEOUT, VM_INTERVAL), s.w, ok);
    case Copy(image) => CopyGrows(e, image, s, ok);
    case Interrupt =>
      FailGrows(e, s.(c := s.c.(aborted := true)));
      GrowsMore(e, s.w, Abort(e, s).w, RollbackVerb, ok);
    case Collect => ExtendsSelf(e, s.w);
    case Register(_) => ExtendsSelf(e, s.w);
    case Guard(_) => ExtendsSelf(e, s.w);
    case CheckAbort => ExtendsSelf(e, s.w);
  }

  lemma {:induction false} ExecExtends(e: Env, p: seq<Cmd>, s: State)
    ensures Extends(e, s.w, Exec(e, p, s).s.w)
    decreases |p|
  {
    ExtendsSelf(e, s.w);
    if p != [] {
      StepGrows(e, p[0], s);
      var r := Step(e, p[0], s);
      if r.Ran? {
        ExecExtends(e, p[1..], r.s);
        ExtendsTrans(e, s.w, r.s.w, Exec(e, p[1..], r.s).s.w);
      }
    }
  }

  /** The world is the same function of the trace at every point of a run, at its end and on its failure path. */
  lemma RunReplaysItsTrace(e: Env, p: seq<Cmd>, s: State)
    ensures Extends(e, s.w, Run(e, p, s).s.w)
    ensures Extends(e, Exec(e, p, s).s.w, Run(e, p, s).s.w)
  {
    var r := Exec(e, p, s);
    ExecExtends(e, p, s);
    ExtendsSelf(e, r.s.w);
    if r.Threw? {
      FailGrows(e, r.s);
      ExtendsTrans(e, s.w, r.s.w, Fail(e, r.s).s.w);
    }
  }

  /** Finds the command that made the call at tick `t`. */
  lemma {:induction false} Locate(e: Env, p: seq<Cmd>, s: State, t: nat) returns (k: nat)
    requires |s.w.trace| <= t < |Exec(e, p, s).s.w.trace|
    ensures k < |p| && Reaches(e, p, s, k)
    ensures |At(e, p, s, k).w.trace| <= t < |Step(e, p[k], At(e, p, s, k)).s.w.trace|
    ensures Extends(e, Step(e, p[k], At(e, p, s, k)).s.w, Exec(e, p, s).s.w)
    decreases |p|
  {
    var n := |p| - 1;
    assert p != [];
    assert p == p[..n] + [p[n]];
    ExecConcat(e, p[..n], [p[n]], s);
    ExecExtends(e, p[..n], s);
    var r := Exec(e, p[..n], s);
    if r.Ran? && |r.s.w.trace| <= t {
      k := n;
      ReachNext(e, p, s, n);
      assert p[..n + 1] == p;
      ExtendsSelf(e, Exec(e, p, s).s.w);
    } else {
      k := Locate(e, p[..n], s, t);
      assert p[..n][..k] == p[..k];
      if r.Ran? {
        ReachNext(e, p, s, n);
        assert p[..n + 1] == p;
        StepGrows(e, p[n], r.s);
        ExtendsTrans(e, Step(e, p[k], At(e, p, s, k)).s.w, r.s.w, Exec(e, p, s).s.w);
      }
    }
  }

  // ---------- what completed commands leave in the trace ----------

  /** Some tick in `[from, until)` made this call and it was answered. */
  predicate Answered(trace: seq<Attempt>, from: nat, until: nat, verb: Verb, arg: string) {
    exists t | from <= t < until && t < |trace| ::
      trace[t].verb == verb && trace[t].arg == arg && !trace[t].reply.Raised?
  }

  /** The same, and the answer was not a refusal either. */
  predicate Succeeded(trace: seq<Attempt>, from: nat, until: nat, verb: Verb, arg: string) {
    exists t | from <= t < until && t < |trace| :: trace[t] == Attempt(verb, arg, Accepted)
  }

  /** A completed `Do` left its answered call in the trace. */
  lemma CompletedCall(e: Env, p: seq<Cmd>, s: State, i: nat, k: nat)
    requires Reaches(e, p, s, k) && i < k && p[i].Do?
    ensures var trace := At(e, p, s, k).w.trace;
      Answered(trace, |s.w.trace|, |trace|, p[i].verb, p[i].arg) &&
      (!Remote(p[i].verb) ==> Succeeded(trace, |s.w.trace|, |trace|, p[i].verb, p[i].arg))
  {
    ReachPrevious(e, p, s, i, k);
    ReachedExtends(e, p, s, 0, i);
    ReachedExtends(e, p, s, i + 1, k);
    assert p[..0] == [];
    var t := |At(e, p, s, i).w.trace|;
    var trace := At(e, p, s, k).w.trace;
    assert trace[t] == Attempt(p[i].verb, p[i].arg, ReplyTo(e, t, p[i].verb));
  }

  lemma ReachedExtends(e: Env, p: seq<Cmd>, s: State, i: nat, k: nat)
    requires i <= k && Reaches(e, p, s, k)
    ensures Reaches(e, p, s, i) && Extends(e, At(e, p, s, i).w, At(e, p, s, k).w)
  {
    assert p[..k] == p[..i] + p[i..k];
    ExecConcat(e, p[..i], p[i..k], s);
    ExecExtends(e, p[i..k], At(e, p, s, i));
  }
}
