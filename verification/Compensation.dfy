/** What the failure path calls, and what it leaves announced, for every run of both engines. */
module Compensation {
  import opened Clusters
  import opened Protocol
  import opened Traces
  import opened Discipline
  import opened Engines
  import opened Primaries
  import opened Routes
  import opened Results
  import opened Deletion
  import opened Wrappers

  // ---------- the calls that undo one registered step ----------

  /** One force-promote per image, in order, whatever is answered. */
  predicate Forcing(calls: seq<Attempt>, images: seq<string>) {
    |calls| == |images| && forall i | 0 <= i < |images| :: calls[i].verb.ForcePromote? && calls[i].arg == images[i]
  }

  /** Per prefix a withdraw here and an announce through the client's stub, up to the first withdraw that raises. */
  predicate Reversing(calls: seq<Attempt>, prefixes: seq<string>, client: Client)
    decreases |prefixes|
  {
    if prefixes == [] then calls == []
    else
      |calls| >= 1 && calls[0].verb == Withdraw && calls[0].arg == prefixes[0] &&
      if calls[0].reply.Raised? then |calls| == 1
      else
        |calls| >= 2 && calls[1].verb == RemoteAnnounce(client) && calls[1].arg == prefixes[0] &&
        Reversing(calls[2..], prefixes[1..], client)
  }

  predicate Undoing(e: Env, h: Handler, images: seq<string>, calls: seq<Attempt>) {
    match h
    case ReclaimDisks => Forcing(calls, images)
    case ReverseRoutes(prefixes) => Reversing(calls, prefixes, DestClient(e))
    case AbortTunnel => |calls| == 1 && calls[0].verb == AbortJob
  }

  /** All registered steps are undone, the last one first. */
  predicate UndoingAll(e: Env, stack: seq<Handler>, images: seq<string>, calls: seq<Attempt>)
    decreases |stack|
  {
    if stack == [] then calls == []
    else
      exists n | 0 <= n <= |calls| ::
        Undoing(e, stack[|stack| - 1], images, calls[..n]) &&
        UndoingAll(e, stack[..|stack| - 1], images, calls[n..])
  }

  /** The calls of a failure path: the row is marked, and if that did not raise everything is undone. */
  predicate FailurePath(e: Env, stack: seq<Handler>, images: seq<string>, calls: seq<Attempt>) {
    |calls| >= 1 && calls[0].verb == MarkFailed &&
    if calls[0].reply.Raised? then |calls| == 1 else UndoingAll(e, stack, images, calls[1..])
  }

  /**
   What the reversal of a hand-off comes to: it starts with the first prefix, and if no withdraw raises every prefix is
   withdrawn and at once announced through the stub.
   */
  lemma {:induction false} ReversingMeans(calls: seq<Attempt>, prefixes: seq<string>, client: Client)
    requires Reversing(calls, prefixes, client)
    ensures prefixes != [] ==> |calls| >= 1 && calls[0].verb == Withdraw && calls[0].arg == prefixes[0]
    ensures (forall a | a in calls && a.verb == Withdraw :: !a.reply.Raised?) ==>
      |calls| == 2 * |prefixes| &&
      forall i | 0 <= i < |prefixes| ::
        calls[2 * i].verb == Withdraw && calls[2 * i].arg == prefixes[i] &&
        calls[2 * i + 1].verb == RemoteAnnounce(client) && calls[2 * i + 1].arg == prefixes[i]
    decreases |prefixes|
  {
    if prefixes != [] && (forall a | a in calls && a.verb == Withdraw :: !a.reply.Raised?) {
      assert calls[0] in calls;
      assert forall a | a in calls[2..] :: a in calls;
      ReversingMeans(calls[2..], prefixes[1..], client);
      forall i | 0 < i < |prefixes|
        ensures calls[2 * i].verb == Withdraw && calls[2 * i].arg == prefixes[i]
        ensures calls[2 * i + 1].verb == RemoteAnnounce(client) && calls[2 * i + 1].arg == prefixes[i]
      {
        assert calls[2..][2 * (i - 1)] == calls[2 * i] && calls[2..][2 * (i - 1) + 1] == calls[2 * i + 1];
        assert prefixes[1..][i - 1] == prefixes[i];
      }
    }
  }

  lemma {:induction false} ReclaimForces(e: Env, images: seq<string>, w: World)
    ensures var w1 := Reclaim(e, images, w); Extends(e, w, w1) && Forcing(New(w, w1), images)
    decreases |images|
  {
    ExtendsSelf(e, w);
    if images != [] {
      var w1 := After(e, w, ForcePromote, images[0]);
      AfterExtends(e, w, ForcePromote, images[0]);
      ReclaimForces(e, images[1..], w1);
      ExtendsTrans(e, w, w1, Reclaim(e, images[1..], w1));
    }
  }

  lemma {:induction false} ReverseReverses(e: Env, prefixes: seq<string>, client: Client, w: World)
    ensures var w1 := ReverseAll(e, prefixes, client, w).w;
      Extends(e, w, w1) && Reversing(New(w, w1), prefixes, client)
    decreases |prefixes|
  {
    ExtendsSelf(e, w);
    if prefixes != [] {
      var w1 := After(e, w, Withdraw, prefixes[0]);
      AfterExtends(e, w, Withdraw, prefixes[0]);
      if !ReplyTo(e, |w.trace|, Withdraw).Raised? {
        var w2 := After(e, w1, RemoteAnnounce(client), prefixes[0]);
        var w3 := ReverseAll(e, prefixes[1..], client, w2).w;
        AfterExtends(e, w1, RemoteAnnounce(client), prefixes[0]);
        ReverseReverses(e, prefixes[1..], client, w2);
        ExtendsTrans(e, w1, w2, w3);
        ExtendsTrans(e, w, w1, w3);
        assert New(w, w3)[2..] == New(w2, w3);
      }
    }
  }

  lemma HandlerUndoes(e: Env, h: Handler, s: State)
    ensures var r := RunHandler(e, h, s);
      Extends(e, s.w, r.w) && Undoing(e, h, s.c.images, New(s.w, r.w)) && r.c.images == s.c.images
  {
    match h
    case ReclaimDisks => ReclaimForces(e, s.c.images, s.w);
    case ReverseRoutes(prefixes) => ReverseReverses(e, prefixes, DestClient(e), s.w);
    case AbortTunnel => AfterExtends(e, s.w, AbortJob, "");
  }

  lemma {:induction false} UnwindUndoes(e: Env, stack: seq<Handler>, s: State)
    ensures var r := Unwind(e, stack, s);
      Extends(e, s.w, r.w) && UndoingAll(e, stack, s.c.images, New(s.w, r.w))
    decreases |stack|
  {
    ExtendsSelf(e, s.w);
    if stack != [] {
      var n := |stack| - 1;
      var s1 := RunHandler(e, stack[n], s);
      var r := Unwind(e, stack[..n], s1);
      HandlerUndoes(e, stack[n], s);
      UnwindUndoes(e, stack[..n], s1);
      ExtendsTrans(e, s.w, s1.w, r.w);
      hide RunHandler, Undoing, Extends;
      UndoneBoth(e, stack, s.c.images, New(s.w, s1.w), New(s1.w, r.w));
    }
  }

  lemma UndoneBoth(e: Env, stack: seq<Handler>, images: seq<string>, a: seq<Attempt>, b: seq<Attempt>)
    requires stack != [] && Undoing(e, stack[|stack| - 1], images, a)
    requires UndoingAll(e, stack[..|stack| - 1], images, b)
    ensures UndoingAll(e, stack, images, a + b)
  {
    assert (a + b)[..|a|] == a && (a + b)[|a|..] == b;
  }

  /** The failure path marks the row; if it could, it undoes everything registered, last first, whatever fails. */
  lemma FailUndoes(e: Env, s: State)
    ensures var r := Fail(e, s);
      var calls := New(s.w, r.s.w);
      Extends(e, s.w, r.s.w) && FailurePath(e, s.c.stack, s.c.images, calls) &&
      (r.Escaped? <==> calls[0].reply.Raised?)
  {
    var s1 := Invoke(e, s, MarkFailed, "");
    AfterExtends(e, s.w, MarkFailed, "");
    if !Raises(e, s, MarkFailed) {
      UnwindUndoes(e, s1.c.stack, s1);
      ExtendsTrans(e, s.w, s1.w, Unwind(e, s1.c.stack, s1).w);
    }
  }

  // ---------- what is found among these calls ----------

  predicate Among(calls: seq<Attempt>, verb: Verb) {
    exists i | 0 <= i < |calls| :: calls[i].verb == verb
  }

  /** Somewhere among the calls the prefixes' hand-off is reversed. */
  predicate Reverses(calls: seq<Attempt>, prefixes: seq<string>, client: Client) {
    exists a, b | 0 <= a <= b <= |calls| :: Reversing(calls[a..b], prefixes, client)
  }

  lemma {:induction false} ReversingVerbs(calls: seq<Attempt>, prefixes: seq<string>, client: Client)
    requires Reversing(calls, prefixes, client)
    ensures forall i | 0 <= i < |calls| :: calls[i].verb == Withdraw || calls[i].verb == RemoteAnnounce(client)
    decreases |prefixes|
  {
    if prefixes != [] && !calls[0].reply.Raised? {
      ReversingVerbs(calls[2..], prefixes[1..], client);
      forall i | 2 <= i < |calls|
        ensures calls[i].verb == Withdraw || calls[i].verb == RemoteAnnounce(client)
      {
        assert calls[i] == calls[2..][i - 2];
      }
    }
  }

  predicate HasRoutes(stack: seq<Handler>) {
    exists i | 0 <= i < |stack| :: stack[i].ReverseRoutes? && stack[i].prefixes != []
  }

  lemma OneUndone(e: Env, h: Handler, images: seq<string>, calls: seq<Attempt>)
    requires Undoing(e, h, images, calls)
    ensures Among(calls, AbortJob) <==> h.AbortTunnel?
    ensures Among(calls, Withdraw) <==> h.ReverseRoutes? && h.prefixes != []
  {
    match h
    case ReclaimDisks =>
    case ReverseRoutes(prefixes) =>
      ReversingVerbs(calls, prefixes, DestClient(e));
      ReversingMeans(calls, prefixes, DestClient(e));
    case AbortTunnel =>
  }

  lemma AmongConcat(a: seq<Attempt>, b: seq<Attempt>, verb: Verb)
    ensures Among(a + b, verb) <==> Among(a, verb) || Among(b, verb)
  {
    if Among(a, verb) {
      var i :| 0 <= i < |a| && a[i].verb == verb;
      assert (a + b)[i].verb == verb;
    }
    if Among(b, verb) {
      var i :| 0 <= i < |b| && b[i].verb == verb;
      assert (a + b)[|a| + i].verb == verb;
    }
  }

  lemma ReversesConcat(a: seq<Attempt>, b: seq<Attempt>, prefixes: seq<string>, client: Client)
    requires Reverses(a, prefixes, client) || Reverses(b, prefixes, client)
    ensures Reverses(a + b, prefixes, client)
  {
    var calls := a + b;
    if Reverses(a, prefixes, client) {
      var x, y :| 0 <= x <= y <= |a| && Reversing(a[x..y], prefixes, client);
      assert calls[x..y] == a[x..y];
    } else {
      var x, y :| 0 <= x <= y <= |b| && Reversing(b[x..y], prefixes, client);
      assert calls[|a| + x..|a| + y] == b[x..y];
    }
  }

  /**
   Among the calls that undo a stack there is an abort of the copy job exactly if the tunnel's handler is on it, a
   local withdraw exactly if a reversal of some prefixes is, and for each reversal the whole of it.
   */
  lemma {:induction false} UndoneHas(e: Env, stack: seq<Handler>, images: seq<string>, calls: seq<Attempt>)
    requires UndoingAll(e, stack, images, calls)
    ensures Among(calls, AbortJob) <==> AbortTunnel in stack
    ensures Among(calls, Withdraw) <==> HasRoutes(stack)
    ensures forall h | h in stack && h.ReverseRoutes? :: Reverses(calls, h.prefixes, DestClient(e))
    decreases |stack|
  {
    hide Undoing, UndoingAll, Among, HasRoutes, Reverses;
    if stack == [] {
      UndoneNone(e, images, calls);
    } else {
      var n := UndoneSplit(e, stack, images, calls);
      UndoneHas(e, stack[..|stack| - 1], images, calls[n..]);
      assert calls[..n] + calls[n..] == calls;
      UndoneMore(e, stack, images, calls[..n], calls[n..]);
    }
  }

  lemma UndoneNone(e: Env, images: seq<string>, calls: seq<Attempt>)
    requires UndoingAll(e, [], images, calls)
    ensures !Among(calls, AbortJob) && !Among(calls, Withdraw) && !HasRoutes([])
  {
  }

  lemma UndoneSplit(e: Env, stack: seq<Handler>, images: seq<string>, calls: seq<Attempt>) returns (n: nat)
    requires stack != [] && UndoingAll(e, stack, images, calls)
    ensures n <= |calls| && Undoing(e, stack[|stack| - 1], images, calls[..n])
    ensures UndoingAll(e, stack[..|stack| - 1], images, calls[n..])
  {
    n :| 0 <= n <= |calls| && Undoing(e, stack[|stack| - 1], images, calls[..n]) &&
      UndoingAll(e, stack[..|stack| - 1], images, calls[n..]);
  }

  lemma UndoneMore(e: Env, stack: seq<Handler>, images: seq<string>, a: seq<Attempt>, b: seq<Attempt>)
    requires stack != [] && Undoing(e, stack[|stack| - 1], images, a)
    requires var rest := stack[..|stack| - 1];
      (Among(b, AbortJob) <==> AbortTunnel in rest) && (Among(b, Withdraw) <==> HasRoutes(rest)) &&
      forall h | h in rest && h.ReverseRoutes? :: Reverses(b, h.prefixes, DestClient(e))
    ensures Among(a + b, AbortJob) <==> AbortTunnel in stack
    ensures Among(a + b, Withdraw) <==> HasRoutes(stack)
    ensures forall h | h in stack && h.ReverseRoutes? :: Reverses(a + b, h.prefixes, DestClient(e))
  {
    var last := stack[|stack| - 1];
    OneUndone(e, last, images, a);
    AmongConcat(a, b, AbortJob);
    AmongConcat(a, b, Withdraw);
    HandlersSnoc(stack);
    if last.ReverseRoutes? {
      assert a[0..|a|] == a;
      assert Reverses(a, last.prefixes, DestClient(e));
    }
    hide Undoing, Among, HasRoutes, Reverses;
    forall h | h in stack && h.ReverseRoutes?
      ensures Reverses(a + b, h.prefixes, DestClient(e))
    {
      ReversesConcat(a, b, h.prefixes, DestClient(e));
    }
  }

  lemma HandlersSnoc(stack: seq<Handler>)
    requires stack != []
    ensures var m := |stack| - 1;
      (forall h :: h in stack <==> h in stack[..m] || h == stack[m]) &&
      (HasRoutes(stack) <==> HasRoutes(stack[..m]) || (stack[m].ReverseRoutes? && stack[m].prefixes != []))
  {
    var m := |stack| - 1;
    assert stack == stack[..m] + [stack[m]];
  }

  // ---------- what a run has registered ----------

  /** What the commands `p` register, in order. */
  function Registered(p: seq<Cmd>): seq<Handler> {
    if p == [] then []
    else Registered(p[..|p| - 1]) + if p[|p| - 1].Register? then [p[|p| - 1].handler] else []
  }

  lemma {:induction false} RegisteredConcat(p: seq<Cmd>, q: seq<Cmd>)
    ensures Registered(p + q) == Registered(p) + Registered(q)
    decreases |q|
  {
    if q == [] {
      assert p + q == p;
    } else {
      assert (p + q)[..|p + q| - 1] == p + q[..|q| - 1];
      RegisteredConcat(p, q[..|q| - 1]);
    }
  }

  lemma {:induction false} RegisteredNone(p: seq<Cmd>)
    requires forall c | c in p :: !c.Register?
    ensures Registered(p) == []
    decreases |p|
  {
    if p != [] {
      assert p[|p| - 1] in p;
      assert forall c | c in p[..|p| - 1] :: c in p;
      RegisteredNone(p[..|p| - 1]);
    }
  }

  lemma RegisteredOne(c: Cmd)
    ensures Registered([c]) == if c.Register? then [c.handler] else []
  {
    assert [c][..0] == [];
  }

  lemma {:induction false} RegisteredIff(p: seq<Cmd>, h: Handler)
    ensures h in Registered(p) <==> Register(h) in p
    decreases |p|
  {
    if p != [] {
      var n := |p| - 1;
      RegisteredIff(p[..n], h);
      assert p == p[..n] + [p[n]];
    }
  }

  lemma {:induction false} RegisteredStrip(p: seq<Cmd>)
    ensures Registered(p) == Registered(Strip(p))
    decreases |p|
  {
    if p != [] {
      var q := Strip(p[..|p| - 1]);
      RegisteredStrip(p[..|p| - 1]);
      assert (q + [p[|p| - 1]])[..|q|] == q;
    }
  }

  lemma RegisteredPrefix(p: seq<Cmd>, q: seq<Cmd>)
    requires p <= q
    ensures Registered(p) <= Registered(q)
  {
    assert q == p + q[|p|..];
    RegisteredConcat(p, q[|p|..]);
  }

  lemma StackStep(e: Env, c: Cmd, s: State)
    ensures var r := Step(e, c, s);
      r.s.c.stack == s.c.stack + if c.Register? then [c.handler] else []
  {
    if c.Interrupt? {
      FailForces(e, s.(c := s.c.(aborted := true)));
    }
  }

  /** At every reached command the stack is what was registered so far, aborts or not: they take nothing off it. */
  lemma {:induction false} ReachedStack(e: Env, p: seq<Cmd>, s: State, k: nat)
    requires s.c.stack == [] && Reaches(e, p, s, k)
    ensures At(e, p, s, k).c.stack == Registered(p[..k])
    decreases k
  {
    if k == 0 {
      assert p[..0] == [];
    } else {
      ReachPrevious(e, p, s, k - 1, k);
      ReachedStack(e, p, s, k - 1);
      StackStep(e, p[k - 1], At(e, p, s, k - 1));
      assert p[..k][..k - 1] == p[..k - 1];
    }
  }

  /** The failure path of a run undoes everything the run has registered; so does that of every abort on the way. */
  lemma FailingRunUndoes(e: Env, p: seq<Cmd>, s: State, k: nat)
    requires s.c.stack == [] && k < |p| && Reaches(e, p, s, k)
    ensures Step(e, p[k], At(e, p, s, k)).Threw? ==>
      var t := Step(e, p[k], At(e, p, s, k)).s;
      var r := Run(e, p, s);
      var late := New(t.w, r.s.w);
      Extends(e, t.w, r.s.w) && FailurePath(e, Registered(p[..k]), t.c.images, late) &&
      (r.Escaped? <==> late[0].reply.Raised?)
    ensures p[k] == Interrupt ==>
      var f := At(e, p, s, k);
      FailurePath(e, Registered(p[..k]), f.c.images, New(f.w, Step(e, p[k], f).s.w))
  {
    var f := At(e, p, s, k);
    ReachedStack(e, p, s, k);
    if Step(e, p[k], f).Threw? {
      StopResult(e, p, s, k);
      ThrowKeepsStack(e, p[k], f);
      FailUndoes(e, Step(e, p[k], f).s);
    }
    if p[k] == Interrupt {
      FailUndoes(e, f.(c := f.c.(aborted := true)));
    }
  }

  lemma ThrowKeepsStack(e: Env, c: Cmd, s: State)
    requires Step(e, c, s).Threw?
    ensures Step(e, c, s).s.c.stack == s.c.stack && Step(e, c, s).s.c.images == s.c.images
    ensures !c.Register? && !c.Try? && !c.Interrupt?
  {
  }

  lemma ImagesStep(e: Env, c: Cmd, s: State)
    ensures var r := Step(e, c, s);
      r.s.c.images == s.c.images + if c.Collect? then ImagesOf(e.vm.volumeIds) else []
  {
    if c.Interrupt? {
      FailForces(e, s.(c := s.c.(aborted := true)));
    }
  }

  /** The image list a rollback reads: the job's once they were collected, which comes before any demote. */
  lemma {:induction false} ReachedImages(e: Env, j: Job, p: seq<Cmd>, s: State, k: nat)
    requires Follows(e, j, p) && Fresh(j, s) && Reaches(e, p, s, k)
    ensures At(e, p, s, k).c.images == if Collect in p[..k] then Images(e, j) else j.preset
    ensures RECLAIM in p[..k] ==> Collect in p[..k]
    decreases k
  {
    if k == 0 {
      assert p[..0] == [];
    } else {
      LastStep(e, j, p, s, k);
      ReachedImages(e, j, p, s, k - 1);
      ImagesStep(e, p[k - 1], At(e, p, s, k - 1));
      hide Follows, Exec, Step;
    }
  }

  // ---------- the two engines ----------

  /** What each engine registers when nothing stops it. */
  function Stack(e: Env, j: Job): seq<Handler> {
    if j.live then [AbortTunnel, ReclaimDisks]
    else if Prefixes(e) == [] then [ReclaimDisks]
    else [ReclaimDisks, ReverseRoutes(Prefixes(e))]
  }

  predicate Plain(p: seq<Cmd>) {
    forall c | c in p :: !c.Register?
  }

  lemma RegisteredAround(a: seq<Cmd>, h: Handler, b: seq<Cmd>)
    requires Plain(a) && Plain(b)
    ensures Registered(a + [Register(h)] + b) == [h]
  {
    RegisteredConcat(a, [Register(h)]);
    RegisteredConcat(a + [Register(h)], b);
    RegisteredNone(a);
    RegisteredNone(b);
    RegisteredOne(Register(h));
  }

  lemma PlainTail(e: Env, j: Job)
    ensures Plain(Each(Promote(e), Images(e, j))) && Plain(ColdCutover(e, j)) && Plain([Move(Event(Disk, 50.0))])
    ensures forall client :: Plain(Engines.Handoff(Prefixes(e), client))
    ensures forall pct :: Plain(Cleaning(j, pct) + Finish())
  {
  }

  lemma RoutesRegistered(e: Env)
    ensures Registered(ColdBgp(e)) == if Prefixes(e) == [] then [] else [ReverseRoutes(Prefixes(e))]
    ensures Registered(LiveBgp(e)) == []
  {
    RegisteredNone(LiveBgp(e));
    if Prefixes(e) == [] {
      RegisteredNone(ColdBgp(e));
    } else {
      ColdBgpRegisters(e);
    }
  }

  lemma ColdBgpRegisters(e: Env)
    requires Prefixes(e) != []
    ensures Registered(ColdBgp(e)) == [ReverseRoutes(Prefixes(e))]
  {
    var a := [Move(Event(Bgp, 85.0))] + Handoff(Prefixes(e), SourceClient(e));
    assert Plain(a);
    hide Handoff, Plain;
    assert ColdBgp(e) == a + [Register(ReverseRoutes(Prefixes(e)))] + [];
    RegisteredAround(a, ReverseRoutes(Prefixes(e)), []) by {
      assert Plain([]);
    }
  }

  lemma {:induction false} FlushesPlain(images: seq<string>)
    ensures Plain(Flushes(images))
    decreases |images|
  {
    if images != [] {
      FlushesPlain(images[..|images| - 1]);
    }
  }

  lemma EndingRegistered(e: Env, j: Job, routes: seq<Cmd>, pct: real)
    ensures Registered(Ending(e, j, routes, pct)) == [ReclaimDisks] + Registered(routes)
  {
    var a := [RECLAIM] + Each(Promote(e), Images(e, j));
    var b := Cleaning(j, pct) + Finish();
    PlainTail(e, j);
    RegisteredAround([], ReclaimDisks, Each(Promote(e), Images(e, j)));
    assert [] + [RECLAIM] + Each(Promote(e), Images(e, j)) == a;
    RegisteredNone(b);
    RegisteredConcat(a, routes);
    RegisteredConcat(a + routes, b);
    assert Ending(e, j, routes, pct) == a + routes + b;
  }

  lemma ColdRegistered(e: Env, j: Job)
    ensures Registered(ColdProgram(e, j)) ==
            if Prefixes(e) == [] then [ReclaimDisks] else [ReclaimDisks, ReverseRoutes(Prefixes(e))]
  {
    hide ColdProgram, ColdDemoted, ColdRoutes, Ending, ColdBgp;
    ColdShape(e, j);
    ColdDemotedPlain(e, j);
    RegisteredNone(ColdDemoted(e, j));
    EndingRegistered(e, j, ColdRoutes(e, j), 95.0);
    ColdRoutesRegistered(e, j);
    RegisteredConcat(ColdDemoted(e, j), Ending(e, j, ColdRoutes(e, j), 95.0));
  }

  lemma ColdRoutesRegistered(e: Env, j: Job)
    ensures Registered(ColdRoutes(e, j)) == if Prefixes(e) == [] then [] else [ReverseRoutes(Prefixes(e))]
  {
    var a := [Move(Event(Disk, 50.0))] + ColdCutover(e, j);
    PlainTail(e, j);
    RegisteredNone(a);
    RegisteredConcat(a, ColdBgp(e));
    RoutesRegistered(e);
    hide ColdCutover, ColdBgp;
    assert ColdRoutes(e, j) == a + ColdBgp(e);
  }

  lemma ColdDemotedPlain(e: Env, j: Job)
    ensures Plain(ColdDemoted(e, j))
  {
    assert Plain(ColdPreflight(e, j) + [CheckAbort]) && Plain(ColdQuiesce(e, j));
    assert Plain(Syncs(Images(e, j), None, 300) + Each(Demote, Images(e, j)));
  }

  lemma LiveRegistered(e: Env, j: Job)
    ensures Registered(LiveProgram(e, j)) == [AbortTunnel, ReclaimDisks]
  {
    hide LiveProgram, LivePreflight, LiveFront, Observations, Flushes, LiveCopy, Ending, LiveBgp, LiveDemoted;
    LiveShape(e, j);
    LiveMiddlePlain(e, j);
    var a := LivePreflight(e, j) + LiveFront(e, j);
    var b := Observations(e.samples) + LiveCopy() + [Move(Event(Cutover, 80.0))] + Flushes(Images(e, j));
    RegisteredAround(a, AbortTunnel, b);
    LiveDemotedShape(e, j);
    EndingRegistered(e, j, LiveBgp(e), 96.0);
    RoutesRegistered(e);
    RegisteredConcat(LiveDemoted(e, j), Ending(e, j, LiveBgp(e), 96.0));
  }

  /** Everything between preflight and the registration of the tunnel's rollback. */
  function LiveFront(e: Env, j: Job): seq<Cmd> {
    [CheckAbort] + LiveDiskSync(e, j) + [Move(Event(Memory, 25.0)), Guard(j.destHost != "")]
  }

  lemma LiveMiddlePlain(e: Env, j: Job)
    ensures Plain(LivePreflight(e, j) + LiveFront(e, j))
    ensures Plain(Observations(e.samples) + LiveCopy() + [Move(Event(Cutover, 80.0))] + Flushes(Images(e, j)))
  {
    FlushesPlain(Images(e, j));
    assert Plain(LivePreflight(e, j)) && Plain(LiveFront(e, j)) && Plain(Observations(e.samples) + LiveCopy());
  }

  lemma LiveDemotedShape(e: Env, j: Job)
    ensures LiveDemoted(e, j) ==
            LivePreflight(e, j) + LiveFront(e, j) + [Register(AbortTunnel)] +
            (Observations(e.samples) + LiveCopy() + [Move(Event(Cutover, 80.0))] + Flushes(Images(e, j)))
  {
    hide LivePreflight, LiveDiskSync, Observations, Flushes;
  }

  lemma ProgramRegisters(e: Env, j: Job)
    ensures Registered(Program(e, j)) == Stack(e, j)
  {
    ColdRegistered(e, j);
    LiveRegistered(e, j);
  }

  /** Whatever an engine has registered at some point of a run is the bottom of its full stack. */
  lemma RunRegisters(e: Env, j: Job, p: seq<Cmd>, k: nat)
    requires RunOf(e, j, p) && k <= |p|
    ensures Registered(p[..k]) <= Stack(e, j)
  {
    StripPrefix(p, k);
    RegisteredStrip(p[..k]);
    ProgramRegisters(e, j);
    hide Program;
    RegisteredPrefix(Strip(p[..k]), Program(e, j));
  }

  /** The transition is one of the last two, which come behind all that an engine registers. */
  predicate Closing(c: Cmd) {
    c.Move? && (c.event.phase.Cleanup? || c.event.phase.Done?)
  }

  predicate Unclosed(p: seq<Cmd>) {
    forall c | c in p :: !Closing(c)
  }

  lemma BeforeCleanupUnclosed(e: Env, j: Job)
    ensures Unclosed(BeforeCleanup(e, j))
  {
    if j.live {
      LiveUnclosed(e, j);
    } else {
      ColdUnclosed(e, j);
    }
  }

  lemma ColdUnclosed(e: Env, j: Job)
    ensures Unclosed(ColdDemoted(e, j) + [RECLAIM] + Each(Promote(e), Images(e, j)) + ColdRoutes(e, j))
  {
    assert Unclosed(ColdPreflight(e, j) + [CheckAbort]) && Unclosed(ColdQuiesce(e, j));
    assert Unclosed(Syncs(Images(e, j), None, 300) + Each(Demote, Images(e, j)));
    assert Unclosed([RECLAIM] + Each(Promote(e), Images(e, j)));
    assert Unclosed([Move(Event(Disk, 50.0))] + ColdCutover(e, j)) && Unclosed(ColdBgp(e));
    hide ColdPreflight, ColdQuiesce, Syncs, Each, ColdCutover, ColdBgp;
  }

  lemma {:induction false} FlushesUnclosed(images: seq<string>)
    ensures Unclosed(Flushes(images))
    decreases |images|
  {
    if images != [] {
      FlushesUnclosed(images[..|images| - 1]);
    }
  }

  lemma LiveUnclosed(e: Env, j: Job)
    ensures Unclosed(LiveDemoted(e, j) + [RECLAIM] + Each(Promote(e), Images(e, j)) + LiveBgp(e))
  {
    FlushesUnclosed(Images(e, j));
    assert Unclosed(LivePreflight(e, j) + [CheckAbort]) && Unclosed(LiveDiskSync(e, j)) && Unclosed(LiveMemory(e, j));
    assert Unclosed([RECLAIM] + Each(Promote(e), Images(e, j))) && Unclosed(LiveBgp(e));
    hide LivePreflight, LiveDiskSync, LiveMemory, LiveBgp, Flushes, Each;
  }

  lemma CleaningParts(j: Job, pct: real)
    ensures var b := Cleaning(j, pct) + Finish();
      |b| == 3 && Closing(b[0]) && b[1] == Try(DeleteVm, j.vmId) && Closing(b[2]) && Plain(b)
  {
  }

  lemma LastRegistration(e: Env, j: Job)
    requires !j.live && Prefixes(e) != []
    ensures var a := BeforeCleanup(e, j);
      |a| > 0 && a[|a| - 1] == Register(ReverseRoutes(Prefixes(e))) && Registered(a[..|a| - 1]) == [ReclaimDisks]
  {
    hide BeforeCleanup;
    BeforeCleanupRegisters(e, j);
    EndsInRoutes(e, j);
    RegisteredLast(BeforeCleanup(e, j), ReverseRoutes(Prefixes(e)), [ReclaimDisks]);
  }

  lemma RegisteredLast(a: seq<Cmd>, h: Handler, full: seq<Handler>)
    requires a != [] && a[|a| - 1] == Register(h) && Registered(a) == full + [h]
    ensures Registered(a[..|a| - 1]) == full
  {
    assert (full + [h])[..|full|] == full;
  }

  lemma ColdBgpEnds(e: Env)
    requires Prefixes(e) != []
    ensures |ColdBgp(e)| > 0 && ColdBgp(e)[|ColdBgp(e)| - 1] == Register(ReverseRoutes(Prefixes(e)))
  {
  }

  lemma EndsInRoutes(e: Env, j: Job)
    requires !j.live && Prefixes(e) != []
    ensures var a := BeforeCleanup(e, j); |a| > 0 && a[|a| - 1] == Register(ReverseRoutes(Prefixes(e)))
  {
    ColdBgpEnds(e);
    hide ColdDemoted, ColdBgp, Each, ColdCutover;
  }

  lemma BeforeCleanupRegisters(e: Env, j: Job)
    ensures Registered(BeforeCleanup(e, j)) == Stack(e, j)
  {
    CleanupShape(e, j);
    CleaningParts(j, CleanupPct(j));
    ProgramRegisters(e, j);
    hide Program, BeforeCleanup, Cleaning, Finish, Stack;
    RegisteredConcat(BeforeCleanup(e, j), Cleaning(j, CleanupPct(j)) + Finish());
    RegisteredNone(Cleaning(j, CleanupPct(j)) + Finish());
  }

  /** The place of an engine's own command `k` in its sequence, around the clean-up. */
  lemma PlaceOf(e: Env, j: Job, p: seq<Cmd>, k: nat)
    requires RunOf(e, j, p) && k < |p| && !p[k].Interrupt? && !p[k].Try?
    ensures Closing(p[k]) ==> BeforeCleanup(e, j) <= Strip(p[..k]) <= Program(e, j)
    ensures !Closing(p[k]) ==> Strip(p[..k]) < BeforeCleanup(e, j) && BeforeCleanup(e, j)[|Strip(p[..k])|] == p[k]
  {
    var a := BeforeCleanup(e, j);
    var b := Cleaning(j, CleanupPct(j)) + Finish();
    StripPrefix(p, k);
    CleanupShape(e, j);
    CleaningParts(j, CleanupPct(j));
    BeforeCleanupUnclosed(e, j);
    hide Program, BeforeCleanup, Cleaning, Finish, RunOf, Strip;
    PlaceIn(a, b, Strip(p[..k]), p[k]);
  }

  lemma PlaceIn(a: seq<Cmd>, b: seq<Cmd>, q: seq<Cmd>, c: Cmd)
    requires q <= a + b && |q| < |a + b| && (a + b)[|q|] == c && Unclosed(a)
    requires |b| == 3 && Closing(b[0]) && b[1].Try? && Closing(b[2]) && !c.Try?
    ensures Closing(c) ==> a <= q
    ensures !Closing(c) ==> q < a && a[|q|] == c
  {
    if |q| < |a| {
      assert a[|q|] in a;
    } else {
      assert b[|q| - |a|] == c;
    }
  }

  /** At the last two transitions an engine has registered everything; before them a cold one no reversal of routes. */
  lemma RegisteredAt(e: Env, j: Job, p: seq<Cmd>, k: nat)
    requires RunOf(e, j, p) && k < |p| && !p[k].Interrupt? && !p[k].Try? && !p[k].Register?
    ensures Closing(p[k]) ==> Registered(p[..k]) == Stack(e, j)
    ensures !Closing(p[k]) ==> !HasRoutes(Registered(p[..k]))
  {
    PlaceOf(e, j, p, k);
    if Closing(p[k]) {
      RegisteredAll(e, j, p[..k]);
    } else {
      RegisteredStrip(p[..k]);
      RegisteredFew(e, j, Strip(p[..k]));
    }
  }

  lemma RegisteredAll(e: Env, j: Job, q: seq<Cmd>)
    requires BeforeCleanup(e, j) <= Strip(q) <= Program(e, j)
    ensures Registered(q) == Stack(e, j)
  {
    RegisteredStrip(q);
    BeforeCleanupRegisters(e, j);
    ProgramRegisters(e, j);
    hide Program, BeforeCleanup, Stack, Strip;
    RegisteredPrefix(BeforeCleanup(e, j), Strip(q));
    RegisteredPrefix(Strip(q), Program(e, j));
  }

  lemma RegisteredFew(e: Env, j: Job, q: seq<Cmd>)
    requires q < BeforeCleanup(e, j)
    ensures !HasRoutes(Registered(q))
  {
    hide BeforeCleanup;
    var a := BeforeCleanup(e, j);
    if !j.live && Prefixes(e) != [] {
      LastRegistration(e, j);
      RegisteredShort(q, a, [ReclaimDisks]);
    } else {
      BeforeCleanupRegisters(e, j);
      RegisteredPrefix(q, a);
      NoRoutesIn(Registered(q), Stack(e, j));
    }
  }

  lemma RegisteredShort(q: seq<Cmd>, a: seq<Cmd>, full: seq<Handler>)
    requires q < a && Registered(a[..|a| - 1]) == full && forall h | h in full :: !h.ReverseRoutes?
    ensures !HasRoutes(Registered(q))
  {
    RegisteredPrefix(q, a[..|a| - 1]);
    NoRoutesIn(Registered(q), full);
  }

  lemma NoRoutesIn(stack: seq<Handler>, full: seq<Handler>)
    requires stack <= full && forall h | h in full :: !h.ReverseRoutes?
    ensures !HasRoutes(stack)
  {
  }

  lemma StackHasRoutes(e: Env, j: Job)
    ensures HasRoutes(Stack(e, j)) <==> !j.live && Prefixes(e) != []
  {
    if !j.live && Prefixes(e) != [] {
      assert Stack(e, j)[1].ReverseRoutes?;
    }
  }

  // ---------- main results ----------

  /**
   Every failing run of either engine, aborts included, whose row could be marked: behind the failure it marks the row
   and undoes what it has registered, last first. It aborts the copy job exactly if it had registered the tunnel's
   rollback, and withdraws routes exactly if it is a cold one with addresses that failed at its CLEANUP or DONE
   transition; then it reverses the whole hand-off, prefix by prefix, until a withdraw raises.
   */
  lemma EngineCompensates(e: Env, j: Job, p: seq<Cmd>, s: State, k: nat)
    requires RunOf(e, j, p) && Fresh(j, s) && StopsAt(e, p, s, k) && Step(e, p[k], At(e, p, s, k)).Threw?
    requires Run(e, p, s).Finished?
    ensures var t := Step(e, p[k], At(e, p, s, k)).s;
      var late := New(t.w, Run(e, p, s).s.w);
      FailurePath(e, Registered(p[..k]), t.c.images, late) && !late[0].reply.Raised? &&
      (RECLAIM in p[..k] ==> t.c.images == Images(e, j)) &&
      (Among(late[1..], AbortJob) <==> Register(AbortTunnel) in p[..k]) &&
      (Among(late[1..], Withdraw) <==> !j.live && Prefixes(e) != [] && Closing(p[k])) &&
      (!j.live && Prefixes(e) != [] && Closing(p[k]) ==> Reverses(late[1..], Prefixes(e), DestClient(e)))
  {
    var t := Step(e, p[k], At(e, p, s, k)).s;
    var late := New(t.w, Run(e, p, s).s.w);
    FailingRunUndoes(e, p, s, k);
    ThrowKeepsStack(e, p[k], At(e, p, s, k));
    EnginesFollow(e, j, p);
    ReachedImages(e, j, p, s, k);
    hide Follows;
    hide Run, StopsAt, Step, RunOf, UndoingAll, Among, HasRoutes, Reverses, Registered;
    UndoneHas(e, Registered(p[..k]), t.c.images, late[1..]);
    RegisteredIff(p[..k], AbortTunnel);
    RegisteredAt(e, j, p, k);
    StackHasRoutes(e, j);
    if !j.live && Prefixes(e) != [] && Closing(p[k]) {
      var h := ReverseRoutes(Prefixes(e));
      assert Stack(e, j)[1] == h;
    }
  }

  /** Whoever has asked libvirt to migrate has registered the tunnel's rollback before. */
  lemma CopyIsRegistered(e: Env, j: Job, p: seq<Cmd>, s: State, t: nat, k: nat)
    requires Follows(e, j, p) && StopsAt(e, p, s, k)
    requires |s.w.trace| <= t < |Run(e, p, s).s.w.trace| && Run(e, p, s).s.w.trace[t].verb == Migrate
    ensures Register(AbortTunnel) in p[..k]
  {
    var i := LocateForward(e, p, s, t);
    assert AllowedCmd(e, j, p[..i], p[i]);
    assert Register(AbortTunnel) in p[..i];
    hide Follows, AllowedCmd, Run, Extends;
    if k < i {
      ReachPrevious(e, p, s, k, i);
    }
    assert p[..i] <= p[..k];
  }

  /** A live run that has started to copy memory and fails, its row being marked, aborts the copy job afterwards. */
  lemma EngineAbortsCopy(e: Env, j: Job, p: seq<Cmd>, s: State, t: nat) returns (t': nat)
    requires RunOf(e, j, p) && Fresh(j, s) && Exec(e, p, s).Threw? && Run(e, p, s).Finished?
    requires |s.w.trace| <= t < |Exec(e, p, s).s.w.trace| && Exec(e, p, s).s.w.trace[t].verb == Migrate
    ensures |Exec(e, p, s).s.w.trace| < t' < |Run(e, p, s).s.w.trace| && Run(e, p, s).s.w.trace[t'].verb == AbortJob
  {
    hide Follows, RunOf, Run, UndoingAll, Registered, Reverses, Closing, Fresh;
    assert p[..|p|] == p;
    var k := StopExists(e, p, s, |p|);
    RunReplaysItsTrace(e, p, s);
    EnginesFollow(e, j, p);
    CopyIsRegistered(e, j, p, s, t, k);
    EngineCompensates(e, j, p, s, k);
    t' := LateCall(Exec(e, p, s).s.w, Run(e, p, s).s.w, AbortJob);
  }

  lemma LateCall(w0: World, w1: World, verb: Verb) returns (t: nat)
    requires w0.trace <= w1.trace && New(w0, w1) != [] && Among(New(w0, w1)[1..], verb)
    ensures |w0.trace| < t < |w1.trace| && w1.trace[t].verb == verb
  {
    var late := New(w0, w1)[1..];
    var n :| 0 <= n < |late| && late[n].verb == verb;
    t := |w0.trace| + 1 + n;
  }

  // ---------- where the addresses are announced after a failure ----------

  lemma HandlerRoutes(e: Env, h: Handler, prefixes: seq<string>, s: State)
    requires AllSucceed(e, |s.w.trace|) && (h.ReverseRoutes? ==> h.prefixes == prefixes)
    ensures var w := RunHandler(e, h, s).w;
      |s.w.trace| <= |w.trace| && w.srcRoutes == s.w.srcRoutes &&
      w.dstRoutes == if !h.ReverseRoutes? then s.w.dstRoutes
                     else if e.destClient then s.w.dstRoutes + SetOf(prefixes) else s.w.dstRoutes - SetOf(prefixes)
  {
    RunHandlerGrows(e, h, s);
    match h
    case ReclaimDisks => ReclaimRoutes(e, s.c.images, s.w);
    case ReverseRoutes(_) => ReverseOutcome(e, prefixes, DestClient(e), s.w);
    case AbortTunnel =>
  }

  lemma {:induction false} ReclaimRoutes(e: Env, images: seq<string>, w: World)
    ensures var r := Reclaim(e, images, w); r.srcRoutes == w.srcRoutes && r.dstRoutes == w.dstRoutes
    decreases |images|
  {
    if images != [] {
      ReclaimRoutes(e, images[1..], After(e, w, ForcePromote, images[0]));
    }
  }

  lemma {:induction false} UnwindRoutes(e: Env, stack: seq<Handler>, prefixes: seq<string>, s: State)
    requires AllSucceed(e, |s.w.trace|) && forall h | h in stack && h.ReverseRoutes? :: h.prefixes == prefixes
    ensures var w := Unwind(e, stack, s).w;
      w.srcRoutes == s.w.srcRoutes &&
      w.dstRoutes == if ReverseRoutes(prefixes) !in stack then s.w.dstRoutes
                     else if e.destClient then s.w.dstRoutes + SetOf(prefixes) else s.w.dstRoutes - SetOf(prefixes)
    decreases |stack|
  {
    if stack != [] {
      var n := |stack| - 1;
      HandlerRoutes(e, stack[n], prefixes, s);
      HandlersSnoc(stack);
      hide RunHandler, SetOf;
      UnwindRoutes(e, stack[..n], prefixes, RunHandler(e, stack[n], s));
      TwiceIsOnce(s.w.dstRoutes, SetOf(prefixes));
    }
  }

  lemma TwiceIsOnce(a: set<string>, b: set<string>)
    ensures a + b + b == a + b && a - b - b == a - b
  {
  }

  /**
   Where a failing run leaves the addresses, if every call from the failure on succeeds: nothing changes at the source.
   At the destination nothing changes either, except after a cold run with addresses that failed at its CLEANUP or DONE
   transition: there they are announced if the destination has a stub, and withdrawn if it has none.
   */
  lemma EngineFailureRoutes(e: Env, j: Job, p: seq<Cmd>, s: State, k: nat)
    requires RunOf(e, j, p) && Fresh(j, s) && StopsAt(e, p, s, k) && Step(e, p[k], At(e, p, s, k)).Threw?
    requires AllSucceed(e, |Step(e, p[k], At(e, p, s, k)).s.w.trace|)
    ensures var w := Step(e, p[k], At(e, p, s, k)).s.w;
      var r := Run(e, p, s);
      r.Finished? && r.s.w.srcRoutes == w.srcRoutes &&
      r.s.w.dstRoutes == if j.live || !Closing(p[k]) then w.dstRoutes
                         else if e.destClient then w.dstRoutes + SetOf(Prefixes(e))
                         else w.dstRoutes - SetOf(Prefixes(e))
  {
    var t := Step(e, p[k], At(e, p, s, k)).s;
    var s1 := Invoke(e, t, MarkFailed, "");
    var stack := Registered(p[..k]);
    StopResult(e, p, s, k);
    ReachedStack(e, p, s, k);
    ThrowKeepsStack(e, p[k], At(e, p, s, k));
    assert !e.raises(|t.w.trace|);
    RegisteredAt(e, j, p, k);
    RunRegisters(e, j, p, k);
    hide Registered, StopsAt, Step, Exec, RunOf, Closing;
    StackRoutes(e, j, stack, Closing(p[k]));
    UnwindRoutes(e, stack, Prefixes(e), s1);
    hide Unwind;
    if j.live || !Closing(p[k]) {
      assert Prefixes(e) == [] || ReverseRoutes(Prefixes(e)) !in stack;
    }
  }

  lemma StackRoutes(e: Env, j: Job, stack: seq<Handler>, full: bool)
    requires stack <= Stack(e, j) && if full then stack == Stack(e, j) else !HasRoutes(stack)
    ensures forall h | h in stack && h.ReverseRoutes? :: h.prefixes == Prefixes(e)
    ensures ReverseRoutes(Prefixes(e)) in stack <==> !j.live && Prefixes(e) != [] && full
  {
    if !j.live && Prefixes(e) != [] && full {
      assert Stack(e, j)[1] == ReverseRoutes(Prefixes(e));
    }
  }
}
