/** Which side holds each image's primary copy, at every point of a run and after any failure. */
module Primaries {
  import opened Clusters
  import opened Protocol
  import opened Traces
  import opened Discipline

  /** The arguments of the accepted calls of one kind. */
  function AcceptedArgs(calls: seq<Attempt>, verb: Verb): set<string> {
    set a | a in calls && a.verb == verb && a.reply.Accepted? :: a.arg
  }

  /** The engine as its constructor leaves it. */
  predicate Fresh(j: Job, s: State) {
    s.c.images == j.preset && s.c.stack == [] && s.c.ran == [] && !s.c.aborted
  }

  /** Every image of the job is primary at the source, and nothing is primary on both sides. */
  predicate AtSource(e: Env, j: Job, w: World) {
    w.src !! w.dst && forall i | 0 <= i < |Images(e, j)| :: Images(e, j)[i] in w.src
  }

  function DemotedBy(p: seq<Cmd>): set<string> {
    set c | c in p && c.Do? && c.verb.Demote? :: c.arg
  }

  lemma AcceptedConcat(a: seq<Attempt>, b: seq<Attempt>, verb: Verb)
    ensures AcceptedArgs(a + b, verb) == AcceptedArgs(a, verb) + AcceptedArgs(b, verb)
  {
  }

  lemma AcceptedOne(a: Attempt, verb: Verb)
    ensures AcceptedArgs([a], verb) == if a.verb == verb && a.reply.Accepted? then {a.arg} else {}
  {
    assert a in [a];
  }

  /** What the primaries owe to the calls made since `w0`. */
  predicate PrimaryLaw(w0: World, w1: World) {
    Owed(w0, New(w0, w1), w1)
  }

  predicate Owed(w0: World, calls: seq<Attempt>, w1: World) {
    w1.dst == w0.dst + AcceptedArgs(calls, PromoteRemote) &&
    (NoDemotes(calls) ==>
      w1.src == w0.src + AcceptedArgs(calls, ForcePromote) + AcceptedArgs(calls, PromoteLocal))
  }

  predicate NoDemotes(calls: seq<Attempt>) {
    forall a | a in calls :: !a.verb.Demote?
  }

  lemma PrimaryLawOne(e: Env, w: World, verb: Verb, arg: string)
    ensures PrimaryLaw(w, After(e, w, verb, arg))
  {
    var a := Attempt(verb, arg, ReplyTo(e, |w.trace|, verb));
    AfterExtends(e, w, verb, arg);
    AcceptedOne(a, PromoteRemote);
    AcceptedOne(a, ForcePromote);
    AcceptedOne(a, PromoteLocal);
    assert a in New(w, After(e, w, verb, arg));
  }

  lemma OwedTrans(w0: World, a: seq<Attempt>, w: World, b: seq<Attempt>, w1: World)
    requires Owed(w0, a, w) && Owed(w, b, w1)
    ensures Owed(w0, a + b, w1)
  {
    AcceptedConcat(a, b, PromoteRemote);
    AcceptedConcat(a, b, ForcePromote);
    AcceptedConcat(a, b, PromoteLocal);
    hide AcceptedArgs;
    if NoDemotes(a + b) {
      NoDemotesParts(a, b);
      hide NoDemotes;
      Regroup(w0.src, AcceptedArgs(a, ForcePromote), AcceptedArgs(a, PromoteLocal),
              AcceptedArgs(b, ForcePromote), AcceptedArgs(b, PromoteLocal));
    }
  }

  lemma NoDemotesParts(a: seq<Attempt>, b: seq<Attempt>)
    requires NoDemotes(a + b)
    ensures NoDemotes(a) && NoDemotes(b)
  {
    assert forall x | x in a :: x in a + b;
    assert forall x | x in b :: x in a + b;
  }

  lemma Regroup(s: set<string>, a: set<string>, b: set<string>, c: set<string>, d: set<string>)
    ensures s + a + b + c + d == s + (a + c) + (b + d)
  {
  }

  /** Refused and failing calls move nothing; the destination only gains what it accepted to promote. */
  lemma {:induction false} PrimariesFollowCalls(e: Env, w0: World, w1: World)
    requires Extends(e, w0, w1)
    ensures PrimaryLaw(w0, w1)
    decreases |w1.trace| - |w0.trace|
  {
    var calls := New(w0, w1);
    if calls != [] {
      var w := After(e, w0, calls[0].verb, calls[0].arg);
      ReplayTrace(e, w, calls[1..]);
      assert New(w, w1) == calls[1..];
      AfterExtends(e, w0, calls[0].verb, calls[0].arg);
      assert calls == New(w0, w) + New(w, w1) by {
        ExtendsTrans(e, w0, w, w1);
      }
      PrimariesFollowCalls(e, w, w1);
      PrimaryLawOne(e, w0, calls[0].verb, calls[0].arg);
      OwedTrans(w0, New(w0, w), w, New(w, w1), w1);
    }
  }

  // ---------- the rollback stack ----------

  function Reversed<T>(s: seq<T>): seq<T> {
    seq(|s|, i requires 0 <= i < |s| => s[|s| - 1 - i])
  }

  /** Every registered handler runs exactly once, last registered first, whichever of their calls fail. */
  lemma {:induction false} UnwindIsLifo(e: Env, stack: seq<Handler>, s: State)
    ensures Unwind(e, stack, s).c == s.c.(ran := s.c.ran + Reversed(stack))
    decreases |stack|
  {
    if stack == [] {
      assert s.c.ran + Reversed(stack) == s.c.ran;
    } else {
      var n := |stack| - 1;
      UnwindIsLifo(e, stack[..n], RunHandler(e, stack[n], s));
      assert Reversed(stack) == [stack[n]] + Reversed(stack[..n]);
      assert s.c.ran + [stack[n]] + Reversed(stack[..n]) == s.c.ran + Reversed(stack);
    }
  }

  predicate OnlyForces(calls: seq<Attempt>, images: seq<string>) {
    forall a | a in calls && a.verb.ForcePromote? :: a.arg in images
  }

  predicate ForcesAll(calls: seq<Attempt>, images: seq<string>) {
    forall i | 0 <= i < |images| :: exists a | a in calls :: a.verb.ForcePromote? && a.arg == images[i]
  }

  lemma {:induction false} ReclaimCalls(e: Env, images: seq<string>, w: World)
    ensures var w1 := Reclaim(e, images, w);
      Extends(e, w, w1) && OnlyForces(New(w, w1), images) && ForcesAll(New(w, w1), images)
    decreases |images|
  {
    ExtendsSelf(e, w);
    if images != [] {
      var w1 := After(e, w, ForcePromote, images[0]);
      var w2 := Reclaim(e, images[1..], w1);
      AfterExtends(e, w, ForcePromote, images[0]);
      ReclaimCalls(e, images[1..], w1);
      ExtendsTrans(e, w, w1, w2);
      var first := Attempt(ForcePromote, images[0], ReplyTo(e, |w.trace|, ForcePromote));
      assert New(w, w1)[0] == first;
      forall i | 0 <= i < |images|
        ensures exists a | a in New(w, w2) :: a.verb.ForcePromote? && a.arg == images[i]
      {
        if i == 0 {
          assert first in New(w, w2);
        } else {
          assert images[i] == images[1..][i - 1];
        }
      }
    }
  }

  lemma {:induction false} UnwindForces(e: Env, stack: seq<Handler>, s: State)
    ensures var r := Unwind(e, stack, s);
      Extends(e, s.w, r.w) && OnlyForces(New(s.w, r.w), s.c.images) &&
      (ReclaimDisks in stack ==> ForcesAll(New(s.w, r.w), s.c.images)) &&
      (ReclaimDisks !in stack ==> OnlyForces(New(s.w, r.w), []))
    decreases |stack|
  {
    ExtendsSelf(e, s.w);
    if stack != [] {
      var n := |stack| - 1;
      var s1 := RunHandler(e, stack[n], s);
      RunHandlerGrows(e, stack[n], s);
      UnwindForces(e, stack[..n], s1);
      ExtendsTrans(e, s.w, s1.w, Unwind(e, stack, s).w);
      assert stack == stack[..n] + [stack[n]];
      HandlerForces(e, stack[n], s);
      ForcesConcat(New(s.w, s1.w), New(s1.w, Unwind(e, stack, s).w), s.c.images);
      ForcesConcat(New(s.w, s1.w), New(s1.w, Unwind(e, stack, s).w), []);
    }
  }

  lemma ForcesConcat(a: seq<Attempt>, b: seq<Attempt>, images: seq<string>)
    ensures OnlyForces(a, images) && OnlyForces(b, images) ==> OnlyForces(a + b, images)
    ensures ForcesAll(a, images) || ForcesAll(b, images) ==> ForcesAll(a + b, images)
  {
    assert forall x | x in a :: x in a + b;
    assert forall x | x in b :: x in a + b;
  }

  lemma HandlerForces(e: Env, h: Handler, s: State)
    ensures var r := RunHandler(e, h, s);
      OnlyForces(New(s.w, r.w), s.c.images) &&
      (h.ReclaimDisks? ==> ForcesAll(New(s.w, r.w), s.c.images)) &&
      (!h.ReclaimDisks? ==> OnlyForces(New(s.w, r.w), []))
  {
    match h
    case ReclaimDisks => ReclaimCalls(e, s.c.images, s.w);
    case ReverseRoutes(prefixes) =>
      ReverseGrows(e, prefixes, DestClient(e), s.w, (v: Verb) => v.Withdraw? || v.RemoteAnnounce?);
    case AbortTunnel => AfterGrows(e, s.w, AbortJob, "", (v: Verb) => v.AbortJob?);
  }

  lemma FailCalls(e: Env, s: State)
    ensures var r := Fail(e, s);
      Extends(e, s.w, r.s.w) && r.s.c == s.c.(ran := r.s.c.ran) && OnlyForces(New(s.w, r.s.w), s.c.images) &&
      (r.Escaped? || ReclaimDisks !in s.c.stack ==> OnlyForces(New(s.w, r.s.w), [])) &&
      (r.Finished? && ReclaimDisks in s.c.stack ==> ForcesAll(New(s.w, r.s.w), s.c.images))
  {
    var r := Fail(e, s);
    var s1 := Invoke(e, s, MarkFailed, "");
    AfterExtends(e, s.w, MarkFailed, "");
    if r.Finished? {
      UnwindForces(e, s1.c.stack, s1);
      UnwindIsLifo(e, s1.c.stack, s1);
      ExtendsTrans(e, s.w, s1.w, r.s.w);
      ForcesConcat(New(s.w, s1.w), New(s1.w, r.s.w), s.c.images);
      ForcesConcat(New(s.w, s1.w), New(s1.w, r.s.w), []);
    }
  }

  /** Everything the failure path does to the primaries: it force-promotes images, and nothing else. */
  lemma FailForces(e: Env, s: State)
    ensures var r := Fail(e, s);
      Extends(e, s.w, r.s.w) && r.s.c == s.c.(ran := r.s.c.ran) && r.s.w.dst == s.w.dst &&
      r.s.w.src == s.w.src + AcceptedArgs(New(s.w, r.s.w), ForcePromote) &&
      AcceptedArgs(New(s.w, r.s.w), ForcePromote) <= (set image | image in s.c.images) &&
      (r.Escaped? || ReclaimDisks !in s.c.stack ==> r.s.w.src == s.w.src) &&
      (r.Finished? && ReclaimDisks in s.c.stack ==> ForcesAll(New(s.w, r.s.w), s.c.images))
  {
    var r := Fail(e, s);
    FailCalls(e, s);
    FailGrows(e, s);
    PrimariesFollowCalls(e, s.w, r.s.w);
    RollbackOwed(s.w, New(s.w, r.s.w), r.s.w, s.c.images);
    if r.Escaped? || ReclaimDisks !in s.c.stack {
      RollbackOwed(s.w, New(s.w, r.s.w), r.s.w, []);
    }
  }

  lemma RollbackOwed(w0: World, calls: seq<Attempt>, w1: World, images: seq<string>)
    requires Owed(w0, calls, w1) && OnlyForces(calls, images)
    requires forall i | 0 <= i < |calls| :: RollbackVerb(calls[i].verb)
    ensures w1.dst == w0.dst && w1.src == w0.src + AcceptedArgs(calls, ForcePromote)
    ensures AcceptedArgs(calls, ForcePromote) <= (set image | image in images)
  {
    assert forall a | a in calls :: RollbackVerb(a.verb);
    assert AcceptedArgs(calls, PromoteRemote) == {} && AcceptedArgs(calls, PromoteLocal) == {};
  }

  // ---------- what holds whenever a run reaches a command ----------

  ghost predicate Holding(e: Env, j: Job, s0: State, before: seq<Cmd>, s: State) {
    s.c.images == (if Collect in before then Images(e, j) else j.preset) &&
    (RECLAIM in before <==> ReclaimDisks in s.c.stack) &&
    (RECLAIM in before ==> Collect in before) &&
    DemotedBy(before) <= (set image | image in Images(e, j)) &&
    s0.w.src - DemotedBy(before) <= s.w.src <= s0.w.src &&
    (RECLAIM !in before ==> s.w.src == s0.w.src - DemotedBy(before) && s.w.dst == s0.w.dst)
  }

  lemma DemotedSnoc(before: seq<Cmd>, c: Cmd)
    ensures DemotedBy(before + [c]) == DemotedBy(before) + if c.Do? && c.verb.Demote? then {c.arg} else {}
  {
    var p := before + [c];
    forall x
      ensures x in DemotedBy(p) <==> x in DemotedBy(before) + if c.Do? && c.verb.Demote? then {c.arg} else {}
    {
      if c.Do? && c.verb.Demote? && x == c.arg {
        assert c in p;
      }
      if x in DemotedBy(before) {
        var d :| d in before && d.Do? && d.verb.Demote? && d.arg == x;
        assert d in p;
      }
    }
  }

  predicate Moves(verb: Verb) {
    verb.Demote? || verb.PromoteRemote? || verb.PromoteLocal? || verb.ForcePromote?
  }

  /** A command that makes none of the four primary-moving calls moves no primary. */
  lemma Unmoved(e: Env, c: Cmd, s: State)
    requires forall v | Issues(c, v) :: !Moves(v)
    ensures Step(e, c, s).s.w.src == s.w.src && Step(e, c, s).s.w.dst == s.w.dst
  {
    StepGrows(e, c, s);
    var w1 := Step(e, c, s).s.w;
    PrimariesFollowCalls(e, s.w, w1);
    assert forall a | a in New(s.w, w1) :: Issues(c, a.verb);
  }

  /** A command that raises has moved no primary. */
  lemma ThrowMovesNothing(e: Env, j: Job, before: seq<Cmd>, c: Cmd, s: State)
    requires AllowedCmd(e, j, before, c) && !Step(e, c, s).Ran?
    ensures Step(e, c, s).s.w.src == s.w.src && Step(e, c, s).s.w.dst == s.w.dst
    ensures Step(e, c, s).s.c.stack == s.c.stack && Step(e, c, s).s.c.images == s.c.images
  {
    if !c.Do? {
      Unmoved(e, c, s);
    }
  }

  lemma StepHolds(e: Env, j: Job, s0: State, before: seq<Cmd>, c: Cmd, s: State)
    requires AtSource(e, j, s0.w) && Holding(e, j, s0, before, s)
    requires AllowedCmd(e, j, before, c) && Step(e, c, s).Ran?
    ensures Holding(e, j, s0, before + [c], Step(e, c, s).s)
  {
    if c.Interrupt? {
      AbortHolds(e, j, s0, before, s);
    } else if c.Do? && Moves(c.verb) {
      MoveHolds(e, j, s0, before, c, s);
    } else {
      Unmoved(e, c, s);
      CtxStep(e, c, s);
      StillHolds(e, j, s0, before, c, s, Step(e, c, s).s);
    }
  }

  lemma AbortHolds(e: Env, j: Job, s0: State, before: seq<Cmd>, s: State)
    requires AtSource(e, j, s0.w) && Holding(e, j, s0, before, s)
    ensures Holding(e, j, s0, before + [Interrupt], Abort(e, s))
  {
    DemotedSnoc(before, Interrupt);
    FailForces(e, s.(c := s.c.(aborted := true)));
    assert forall d :: d in before + [Interrupt] <==> d in before || d == Interrupt;
    if RECLAIM in before {
      assert s.c.images == Images(e, j);
    }
  }

  lemma MoveHolds(e: Env, j: Job, s0: State, before: seq<Cmd>, c: Cmd, s: State)
    requires AtSource(e, j, s0.w) && Holding(e, j, s0, before, s)
    requires c.Do? && Moves(c.verb) && AllowedCall(e, j, before, c.verb, c.arg) && Step(e, c, s).Ran?
    ensures Holding(e, j, s0, before + [c], Step(e, c, s).s)
  {
    DemotedSnoc(before, c);
    assert forall d :: d in before + [c] <==> d in before || d == c;
  }

  lemma StillHolds(e: Env, j: Job, s0: State, before: seq<Cmd>, c: Cmd, s: State, s1: State)
    requires Holding(e, j, s0, before, s) && AllowedCmd(e, j, before, c) && !(c.Do? && c.verb.Demote?)
    requires s1.w.src == s.w.src && s1.w.dst == s.w.dst
    requires s1.c.images == s.c.images + if c.Collect? then ImagesOf(e.vm.volumeIds) else []
    requires s1.c.stack == s.c.stack + if c.Register? then [c.handler] else []
    ensures Holding(e, j, s0, before + [c], s1)
  {
    DemotedSnoc(before, c);
    assert forall d :: d in before + [c] <==> d in before || d == c;
  }

  lemma CtxStep(e: Env, c: Cmd, s: State)
    requires !c.Interrupt? && Step(e, c, s).Ran?
    ensures var s1 := Step(e, c, s).s;
      s1.c.images == s.c.images + (if c.Collect? then ImagesOf(e.vm.volumeIds) else []) &&
      s1.c.stack == s.c.stack + if c.Register? then [c.handler] else []
  {
  }

  /** Whatever completed, no failed guard is among it. */
  lemma NoFailedGuard(e: Env, p: seq<Cmd>, s: State, k: nat)
    requires Reaches(e, p, s, k)
    ensures Guard(false) !in p[..k]
  {
    if Guard(false) in p[..k] {
      var i :| 0 <= i < k && p[i] == Guard(false);
      ReachPrevious(e, p, s, i, k);
      assert false;
    }
  }

  /** The last of `k` completed commands: it completed, from the state before it, and was allowed there. */
  lemma LastStep(e: Env, j: Job, p: seq<Cmd>, s: State, k: nat)
    requires Follows(e, j, p) && 0 < k && Reaches(e, p, s, k)
    ensures Reaches(e, p, s, k - 1) && Step(e, p[k - 1], At(e, p, s, k - 1)) == Ran(At(e, p, s, k))
    ensures p[..k] == p[..k - 1] + [p[k - 1]] && AllowedCmd(e, j, p[..k - 1], p[k - 1])
  {
    ReachPrevious(e, p, s, k - 1, k);
    NoFailedGuard(e, p, s, k - 1);
  }

  lemma {:induction false} ReachedHolds(e: Env, j: Job, p: seq<Cmd>, s: State, k: nat)
    requires Follows(e, j, p) && Fresh(j, s) && AtSource(e, j, s.w) && Reaches(e, p, s, k)
    ensures Holding(e, j, s, p[..k], At(e, p, s, k))
    decreases k
  {
    if k == 0 {
      assert p[..0] == [];
    } else {
      LastStep(e, j, p, s, k);
      ReachedHolds(e, j, p, s, k - 1);
      StepHolds(e, j, s, p[..k - 1], p[k - 1], At(e, p, s, k - 1));
    }
  }

  // ---------- main results ----------

  predicate ForcesSucceed(calls: seq<Attempt>) {
    forall a | a in calls && a.verb.ForcePromote? :: a.reply.Accepted?
  }

  lemma ForcedAll(calls: seq<Attempt>, images: seq<string>)
    requires ForcesAll(calls, images) && ForcesSucceed(calls)
    ensures forall image | image in images :: image in AcceptedArgs(calls, ForcePromote)
  {
    forall image | image in images
      ensures image in AcceptedArgs(calls, ForcePromote)
    {
      var i :| 0 <= i < |images| && images[i] == image;
      var a :| a in calls && a.verb.ForcePromote? && a.arg == images[i];
    }
  }

  /**
   Where every primary ends up when command `k` raises, with any number of aborts on the way. Before
   the disk rollback is registered the images demoted so far are lost to both sides; afterwards the
   force-promotes decide, and if they all succeed every image is back at the source while exactly
   those the destination had accepted are primary twice. An exception that escapes rolls nothing back.
   */
  lemma FailureMap(e: Env, j: Job, p: seq<Cmd>, s: State, k: nat)
    requires Follows(e, j, p) && Fresh(j, s) && AtSource(e, j, s.w)
    requires StopsAt(e, p, s, k) && Step(e, p[k], At(e, p, s, k)).Threw?
    ensures var f := At(e, p, s, k);
      var r := Run(e, p, s);
      var late := New(Step(e, p[k], f).s.w, r.s.w);
      var promoted := AcceptedArgs(New(s.w, r.s.w), PromoteRemote);
      r.s.w.dst == s.w.dst + promoted &&
      (RECLAIM !in p[..k] ==> r.s.w.src == s.w.src - DemotedBy(p[..k]) && r.s.w.dst == s.w.dst) &&
      (RECLAIM in p[..k] ==> r.s.w.src == f.w.src + AcceptedArgs(late, ForcePromote)) &&
      (r.Escaped? ==> AcceptedArgs(late, ForcePromote) == {}) &&
      (RECLAIM in p[..k] && r.Finished? && ForcesSucceed(late) ==>
        r.s.w.src == s.w.src && r.s.w.src * r.s.w.dst == s.w.src * promoted)
  {
    var f := At(e, p, s, k);
    var t := Step(e, p[k], f);
    StopResult(e, p, s, k);
    ReachedHolds(e, j, p, s, k);
    NoFailedGuard(e, p, s, k);
    ThrowMovesNothing(e, j, p[..k], p[k], f);
    RunReplaysItsTrace(e, p, s);
    PrimariesFollowCalls(e, s.w, Run(e, p, s).s.w);
    FailedMap(e, j, s, p[..k], f, t.s);
  }

  /** What the failure path makes of the primaries a run reached with the commands `before`. */
  lemma FailedMap(e: Env, j: Job, s0: State, before: seq<Cmd>, f: State, t: State)
    requires AtSource(e, j, s0.w) && Holding(e, j, s0, before, f)
    requires t.w.src == f.w.src && t.w.dst == f.w.dst && t.c.stack == f.c.stack && t.c.images == f.c.images
    ensures var r := Fail(e, t);
      var late := New(t.w, r.s.w);
      (RECLAIM !in before ==> r.s.w.src == s0.w.src - DemotedBy(before) && r.s.w.dst == s0.w.dst) &&
      r.s.w.src == f.w.src + AcceptedArgs(late, ForcePromote) && r.s.w.dst == f.w.dst &&
      (r.Escaped? ==> AcceptedArgs(late, ForcePromote) == {}) &&
      (RECLAIM in before && r.Finished? && ForcesSucceed(late) ==> r.s.w.src == s0.w.src)
  {
    var r := Fail(e, t);
    var late := New(t.w, r.s.w);
    FailForces(e, t);
    if RECLAIM in before && r.Finished? && ForcesSucceed(late) {
      ForcedAll(late, Images(e, j));
      assert SetOf(Images(e, j)) <= AcceptedArgs(late, ForcePromote);
    }
    if r.Escaped? {
      FailCalls(e, t);
      AcceptedNone(late, ForcePromote);
    }
  }

  lemma RegisteredMeansDemoted(e: Env, j: Job, p: seq<Cmd>, s: State, k: nat)
    requires Follows(e, j, p) && Reaches(e, p, s, k) && RECLAIM in p[..k]
    ensures AllDone(p[..k], Demote, Images(e, j))
    ensures forall image | image in Images(e, j) :: image in DemotedBy(p[..k])
  {
    var i :| 0 <= i < k && p[i] == RECLAIM;
    NoFailedGuard(e, p, s, k);
    assert p[..i] <= p[..k];
    assert Guard(false) !in p[..i];
    assert AllDone(p[..i], Demote, Images(e, j));
    assert forall c :: c in p[..i] ==> c in p[..k];
    hide Follows, Exec;
    AllDemoted(p[..k], Images(e, j));
  }

  lemma AllDemoted(p: seq<Cmd>, images: seq<string>)
    requires AllDone(p, Demote, images)
    ensures forall image | image in images :: image in DemotedBy(p)
  {
    forall image | image in images
      ensures image in DemotedBy(p)
    {
      var n :| 0 <= n < |images| && images[n] == image;
      assert Do(Demote, image) in p;
    }
  }

  // ---------- the primary map at every command, aborts included ----------

  /** An abort arrived when the rollback of the demotes was already registered. */
  predicate AbortedLate(p: seq<Cmd>) {
    exists k | 0 <= k < |p| && p[k] == Interrupt :: RECLAIM in p[..k]
  }

  function SetOf(xs: seq<string>): set<string> {
    set x | x in xs
  }

  /** What calls made by the commands `before` can have done to the primaries. */
  predicate Possible(e: Env, j: Job, before: seq<Cmd>, calls: seq<Attempt>) {
    AcceptedArgs(calls, ForcePromote) <= SetOf(Images(e, j)) &&
      AcceptedArgs(calls, PromoteLocal) <= SetOf(Images(e, j)) &&
    AcceptedArgs(calls, PromoteRemote) <= SetOf(Images(e, j)) &&
    (RECLAIM !in before ==> AcceptedArgs(calls, PromoteLocal) == AcceptedArgs(calls, PromoteRemote) == {}) &&
    (AcceptedArgs(calls, ForcePromote) != {} ==> AbortedLate(before)) &&
    (if e.destClient then AcceptedArgs(calls, PromoteLocal) == {} else AcceptedArgs(calls, PromoteRemote) == {})
  }

  /** The source's primaries are those of the start, without the demoted, with what was promoted back. */
  predicate SourceIs(src0: set<string>, before: seq<Cmd>, calls: seq<Attempt>, src: set<string>) {
    src == src0 - DemotedBy(before) + AcceptedArgs(calls, ForcePromote) + AcceptedArgs(calls, PromoteLocal)
  }

  lemma AcceptedNone(calls: seq<Attempt>, verb: Verb)
    requires forall a | a in calls :: a.verb != verb || !a.reply.Accepted?
    ensures AcceptedArgs(calls, verb) == {}
  {
  }

  lemma AbortedLateSnoc(before: seq<Cmd>, c: Cmd)
    ensures AbortedLate(before + [c]) <==> AbortedLate(before) || (c == Interrupt && RECLAIM in before)
  {
    var p := before + [c];
    assert p[..|before|] == before;
    forall k | 0 <= k < |before|
      ensures p[..k] == before[..k] && p[k] == before[k]
    {
    }
    if AbortedLate(before) {
      var k :| 0 <= k < |before| && before[k] == Interrupt && RECLAIM in before[..k];
      assert p[k] == Interrupt && RECLAIM in p[..k];
    }
    if c == Interrupt && RECLAIM in before {
      assert p[|before|] == Interrupt && RECLAIM in p[..|before|];
    }
  }

  /** The calls of one allowed command, abort or not, and what they do to the source. */
  lemma StepCalls(e: Env, j: Job, s0: State, before: seq<Cmd>, c: Cmd, s: State)
    requires AtSource(e, j, s0.w) && Holding(e, j, s0, before, s) && AllowedCmd(e, j, before, c)
    ensures var r := Step(e, c, s);
      var calls := New(s.w, r.s.w);
      Extends(e, s.w, r.s.w) && Possible(e, j, before + [c], calls) &&
      (c.Do? && c.verb.Demote? ==> AcceptedArgs(calls, PromoteLocal) == AcceptedArgs(calls, ForcePromote) == {}) &&
      (r.Ran? ==> SourceIs(s.w.src, [c], calls, r.s.w.src))
  {
    StepGrows(e, c, s);
    if c.Interrupt? {
      AbortStepCalls(e, j, s0, before, s);
    } else if c.Do? && Moves(c.verb) {
      MoveCalls(e, j, before, c, s);
    } else {
      OtherStepCalls(e, j, before, c, s);
    }
  }

  lemma AbortStepCalls(e: Env, j: Job, s0: State, before: seq<Cmd>, s: State)
    requires Holding(e, j, s0, before, s)
    ensures var calls := New(s.w, Abort(e, s).w);
      Possible(e, j, before + [Interrupt], calls) && SourceIs(s.w.src, [Interrupt], calls, Abort(e, s).w.src)
  {
    AbortCalls(e, j, s0, before, s);
    hide Abort, New, Holding, AcceptedArgs;
    AbortPossible(e, j, before, New(s.w, Abort(e, s).w));
    NoDemoteSource(Interrupt, s.w.src, New(s.w, Abort(e, s).w), Abort(e, s).w.src);
  }

  lemma OtherStepCalls(e: Env, j: Job, before: seq<Cmd>, c: Cmd, s: State)
    requires AllowedCmd(e, j, before, c) && !c.Interrupt? && !(c.Do? && Moves(c.verb))
    ensures var calls := New(s.w, Step(e, c, s).s.w);
      Possible(e, j, before + [c], calls) && SourceIs(s.w.src, [c], calls, Step(e, c, s).s.w.src)
  {
    StepGrows(e, c, s);
    Unmoved(e, c, s);
    OtherCalls(c, New(s.w, Step(e, c, s).s.w));
    hide Step, New, AllowedCmd, AcceptedArgs;
    NoDemoteSource(c, s.w.src, New(s.w, Step(e, c, s).s.w), Step(e, c, s).s.w.src);
  }

  lemma AbortPossible(e: Env, j: Job, before: seq<Cmd>, calls: seq<Attempt>)
    requires AcceptedArgs(calls, PromoteLocal) == AcceptedArgs(calls, PromoteRemote) == {}
    requires AcceptedArgs(calls, ForcePromote) <= SetOf(Images(e, j))
    requires RECLAIM !in before ==> AcceptedArgs(calls, ForcePromote) == {}
    ensures Possible(e, j, before + [Interrupt], calls)
  {
    AbortedLateSnoc(before, Interrupt);
  }

  /** A command other than a demote only adds to the source. */
  lemma NoDemoteSource(c: Cmd, src: set<string>, calls: seq<Attempt>, src1: set<string>)
    requires !(c.Do? && c.verb.Demote?)
    requires src1 == src + AcceptedArgs(calls, ForcePromote) + AcceptedArgs(calls, PromoteLocal)
    ensures SourceIs(src, [c], calls, src1)
  {
    DemotedSnoc([], c);
    assert [] + [c] == [c] && DemotedBy([]) == {};
  }

  lemma AbortCalls(e: Env, j: Job, s0: State, before: seq<Cmd>, s: State)
    requires Holding(e, j, s0, before, s)
    ensures var calls := New(s.w, Abort(e, s).w);
      AcceptedArgs(calls, PromoteLocal) == AcceptedArgs(calls, PromoteRemote) == {} &&
      AcceptedArgs(calls, ForcePromote) <= SetOf(Images(e, j)) &&
      (RECLAIM !in before ==> AcceptedArgs(calls, ForcePromote) == {}) &&
      Abort(e, s).w.src == s.w.src + AcceptedArgs(calls, ForcePromote)
  {
    var s1 := s.(c := s.c.(aborted := true));
    var calls := New(s.w, Abort(e, s).w);
    FailForces(e, s1);
    FailCalls(e, s1);
    FailGrows(e, s1);
    assert forall a | a in calls :: RollbackVerb(a.verb);
    AcceptedNone(calls, PromoteLocal);
    AcceptedNone(calls, PromoteRemote);
    if RECLAIM !in before {
      AcceptedNone(calls, ForcePromote);
    }
  }

  lemma MoveCalls(e: Env, j: Job, before: seq<Cmd>, c: Cmd, s: State)
    requires c.Do? && Moves(c.verb) && AllowedCall(e, j, before, c.verb, c.arg)
    ensures var r := Step(e, c, s);
      var calls := New(s.w, r.s.w);
      Possible(e, j, before + [c], calls) && AcceptedArgs(calls, ForcePromote) == {} &&
      (c.verb.Demote? ==> AcceptedArgs(calls, PromoteLocal) == {}) &&
      (r.Ran? ==> SourceIs(s.w.src, [c], calls, r.s.w.src))
  {
    OneCall(e, s.w, c.verb, c.arg);
    if Step(e, c, s).Ran? {
      MovedSource(e, c, s);
    }
    assert c.verb.Demote? || RECLAIM in before + [c];
    hide AcceptedArgs, New, AbortedLate, Step, DemotedBy;
  }

  lemma MovedSource(e: Env, c: Cmd, s: State)
    requires c.Do? && Moves(c.verb) && Step(e, c, s).Ran?
    ensures SourceIs(s.w.src, [c], New(s.w, Step(e, c, s).s.w), Step(e, c, s).s.w.src)
  {
    OneCall(e, s.w, c.verb, c.arg);
    DemotedSnoc([], c);
    assert [] + [c] == [c] && DemotedBy([]) == {};
    hide AcceptedArgs, New, DemotedBy;
  }

  /** What a single call has had accepted. */
  lemma OneCall(e: Env, w: World, verb: Verb, arg: string)
    ensures var calls := New(w, After(e, w, verb, arg));
      var args := if ReplyTo(e, |w.trace|, verb).Accepted? then {arg} else {};
      AcceptedArgs(calls, ForcePromote) == (if verb.ForcePromote? then args else {}) &&
      AcceptedArgs(calls, PromoteLocal) == (if verb.PromoteLocal? then args else {}) &&
      AcceptedArgs(calls, PromoteRemote) == (if verb.PromoteRemote? then args else {})
  {
    var a := Attempt(verb, arg, ReplyTo(e, |w.trace|, verb));
    AfterExtends(e, w, verb, arg);
    AcceptedOne(a, ForcePromote);
    AcceptedOne(a, PromoteLocal);
    AcceptedOne(a, PromoteRemote);
  }

  lemma OtherCalls(c: Cmd, calls: seq<Attempt>)
    requires forall i | 0 <= i < |calls| :: Issues(c, calls[i].verb)
    requires forall v | Issues(c, v) :: !Moves(v)
    ensures AcceptedArgs(calls, ForcePromote) == AcceptedArgs(calls, PromoteLocal) ==
        AcceptedArgs(calls, PromoteRemote) == {}
  {
    assert forall a | a in calls :: Issues(c, a.verb);
    AcceptedNone(calls, ForcePromote);
    AcceptedNone(calls, PromoteLocal);
    AcceptedNone(calls, PromoteRemote);
  }

  /** Chaining: the calls made before command `c`, then those it makes. */
  lemma PossibleConcat(e: Env, j: Job, before: seq<Cmd>, c: Cmd, a: seq<Attempt>, b: seq<Attempt>)
    requires Possible(e, j, before, a) && Possible(e, j, before + [c], b)
    ensures Possible(e, j, before + [c], a + b)
  {
    AcceptedConcat(a, b, ForcePromote);
    AcceptedConcat(a, b, PromoteLocal);
    AcceptedConcat(a, b, PromoteRemote);
    AbortedLateSnoc(before, c);
    assert forall d | d in before :: d in before + [c];
  }

  lemma SourceConcat(src0: set<string>, before: seq<Cmd>, c: Cmd, a: seq<Attempt>, b: seq<Attempt>,
                     src: set<string>, src1: set<string>)
    requires SourceIs(src0, before, a, src) && SourceIs(src, [c], b, src1)
    requires c.Do? && c.verb.Demote? ==>
      AcceptedArgs(a, ForcePromote) == AcceptedArgs(a, PromoteLocal) ==
        AcceptedArgs(b, ForcePromote) == AcceptedArgs(b, PromoteLocal) == {}
    ensures SourceIs(src0, before + [c], a + b, src1)
  {
    AcceptedConcat(a, b, ForcePromote);
    AcceptedConcat(a, b, PromoteLocal);
    DemotedSnoc(before, c);
    DemotedSnoc([], c);
    assert [] + [c] == [c] && DemotedBy([]) == {};
  }

  lemma NotLateYet(before: seq<Cmd>)
    requires RECLAIM !in before
    ensures !AbortedLate(before)
  {
    forall k | 0 <= k < |before|
      ensures RECLAIM !in before[..k]
    {
    }
  }

  /** Nothing was promoted back to the source before its demotes were registered. */
  lemma NothingReturned(e: Env, j: Job, before: seq<Cmd>, calls: seq<Attempt>)
    requires Possible(e, j, before, calls) && RECLAIM !in before
    ensures AcceptedArgs(calls, ForcePromote) == AcceptedArgs(calls, PromoteLocal) == {}
  {
    NotLateYet(before);
  }

  /** The whole primary map after the commands `before`, as far as the source is concerned. */
  predicate MapHolds(e: Env, j: Job, w0: World, before: seq<Cmd>, w: World) {
    Extends(e, w0, w) && Possible(e, j, before, New(w0, w)) && SourceIs(w0.src, before, New(w0, w), w.src)
  }

  lemma MapStep(e: Env, j: Job, s0: State, before: seq<Cmd>, c: Cmd, s: State)
    requires AtSource(e, j, s0.w) && Holding(e, j, s0, before, s) && AllowedCmd(e, j, before, c)
    requires MapHolds(e, j, s0.w, before, s.w) && Step(e, c, s).Ran?
    ensures MapHolds(e, j, s0.w, before + [c], Step(e, c, s).s.w)
  {
    hide Step, Holding, AcceptedArgs, Possible, SourceIs, Extends, New;
    var w1 := Step(e, c, s).s.w;
    var a, b := New(s0.w, s.w), New(s.w, w1);
    StepCalls(e, j, s0, before, c, s);
    ExtendsTrans(e, s0.w, s.w, w1);
    if c.Do? && c.verb.Demote? {
      NothingReturned(e, j, before, a);
    }
    PossibleConcat(e, j, before, c, a, b);
    SourceConcat(s0.w.src, before, c, a, b, s.w.src, w1.src);
  }

  /** At every reached command: the source's primaries are exactly determined by the commands and the accepted calls. */
  lemma {:induction false} ReachedMap(e: Env, j: Job, p: seq<Cmd>, s: State, k: nat)
    requires Follows(e, j, p) && Fresh(j, s) && AtSource(e, j, s.w) && Reaches(e, p, s, k)
    ensures MapHolds(e, j, s.w, p[..k], At(e, p, s, k).w)
    decreases k
  {
    if k == 0 {
      assert p[..0] == [];
      ExtendsSelf(e, s.w);
    } else {
      LastStep(e, j, p, s, k);
      ReachedMap(e, j, p, s, k - 1);
      ReachedHolds(e, j, p, s, k - 1);
      hide MapHolds, Holding, Follows, Step, Exec;
      MapStep(e, j, s, p[..k - 1], p[k - 1], At(e, p, s, k - 1));
    }
  }

  /** An image is primary twice exactly if a force-promote and a remote promote of it were both accepted. */
  predicate DoublyExactly(calls: seq<Attempt>, w: World) {
    w.src * w.dst == AcceptedArgs(calls, ForcePromote) * AcceptedArgs(calls, PromoteRemote)
  }

  lemma DoublySets(
    e: Env, j: Job, w0: World, demoted: set<string>, force: set<string>, local: set<string>, remote: set<string>,
      w: World)
    requires AtSource(e, j, w0) && force <= SetOf(Images(e, j)) && local <= SetOf(Images(e, j)) && remote <= demoted
    requires demoted <= SetOf(Images(e, j)) && (local == {} || remote == {})
    requires w.src == w0.src - demoted + force + local && w.dst == w0.dst + remote
    ensures w.src * w.dst == force * remote
  {
    assert SetOf(Images(e, j)) <= w0.src;
  }

  /**
   Whatever happens, and with aborts at any time: at every command a run reaches, and after that command whether it
   raises or not, the images primary on both sides are exactly those of which a force-promote at the source and a
   promote at the destination have both been accepted.
   */
  lemma DoublyPrimaryExactly(e: Env, j: Job, p: seq<Cmd>, s: State, k: nat)
    requires Follows(e, j, p) && Fresh(j, s) && AtSource(e, j, s.w) && Reaches(e, p, s, k)
    ensures DoublyExactly(New(s.w, At(e, p, s, k).w), At(e, p, s, k).w)
    ensures k < |p| ==> var w := Step(e, p[k], At(e, p, s, k)).s.w; DoublyExactly(New(s.w, w), w)
  {
    DoublyReached(e, j, p, s, k);
    if k < |p| {
      ReachNext(e, p, s, k);
      if Step(e, p[k], At(e, p, s, k)).Ran? {
        DoublyReached(e, j, p, s, k + 1);
      } else {
        DoublyThrown(e, j, p, s, k);
      }
    }
  }

  lemma DoublyReached(e: Env, j: Job, p: seq<Cmd>, s: State, k: nat)
    requires Follows(e, j, p) && Fresh(j, s) && AtSource(e, j, s.w) && Reaches(e, p, s, k)
    ensures DoublyExactly(New(s.w, At(e, p, s, k).w), At(e, p, s, k).w)
  {
    ReachedMap(e, j, p, s, k);
    ReachedHolds(e, j, p, s, k);
    var w := At(e, p, s, k).w;
    var calls := New(s.w, w);
    PrimariesFollowCalls(e, s.w, w);
    if RECLAIM in p[..k] {
      RegisteredMeansDemoted(e, j, p, s, k);
    }
    hide Exec, Follows, AcceptedArgs, New;
    DoublySets(e, j, s.w, DemotedBy(p[..k]), AcceptedArgs(calls, ForcePromote), AcceptedArgs(calls, PromoteLocal),
               AcceptedArgs(calls, PromoteRemote), w);
  }

  /** A command that raises has moved nothing and has no promote accepted. */
  lemma DoublyThrown(e: Env, j: Job, p: seq<Cmd>, s: State, k: nat)
    requires Follows(e, j, p) && Fresh(j, s) && AtSource(e, j, s.w) && StopsAt(e, p, s, k)
    ensures var w := Step(e, p[k], At(e, p, s, k)).s.w;
      Extends(e, s.w, w) && DoublyExactly(New(s.w, w), w)
  {
    var w := At(e, p, s, k).w;
    var w1 := Step(e, p[k], At(e, p, s, k)).s.w;
    DoublyReached(e, j, p, s, k);
    ReachedMap(e, j, p, s, k);
    NoFailedGuard(e, p, s, k);
    ThrowMovesNothing(e, j, p[..k], p[k], At(e, p, s, k));
    StepGrows(e, p[k], At(e, p, s, k));
    ThrownCalls(e, j, p[..k], p[k], At(e, p, s, k));
    ExtendsTrans(e, s.w, w, w1);
    AcceptedConcat(New(s.w, w), New(w, w1), ForcePromote);
    AcceptedConcat(New(s.w, w), New(w, w1), PromoteRemote);
  }

  lemma ThrownCalls(e: Env, j: Job, before: seq<Cmd>, c: Cmd, s: State)
    requires AllowedCmd(e, j, before, c) && !Step(e, c, s).Ran?
    ensures var calls := New(s.w, Step(e, c, s).s.w);
      AcceptedArgs(calls, ForcePromote) == AcceptedArgs(calls, PromoteRemote) == {}
  {
    if c.Do? {
      AfterExtends(e, s.w, c.verb, c.arg);
      AcceptedOne(Attempt(c.verb, c.arg, ReplyTo(e, |s.w.trace|, c.verb)), ForcePromote);
      AcceptedOne(Attempt(c.verb, c.arg, ReplyTo(e, |s.w.trace|, c.verb)), PromoteRemote);
    } else {
      StepGrows(e, c, s);
      OtherCalls(c, New(s.w, Step(e, c, s).s.w));
    }
  }

  /** The same at the end of a run, its failure path included. */
  lemma RunDoublyPrimaryExactly(e: Env, j: Job, p: seq<Cmd>, s: State)
    requires Follows(e, j, p) && Fresh(j, s) && AtSource(e, j, s.w)
    ensures var w := Run(e, p, s).s.w; DoublyExactly(New(s.w, w), w)
  {
    assert p[..|p|] == p;
    if Exec(e, p, s).Ran? {
      DoublyReached(e, j, p, s, |p|);
    } else {
      var k := StopExists(e, p, s, |p|);
      StopResult(e, p, s, k);
      DoublyThrown(e, j, p, s, k);
      if Exec(e, p, s).Threw? {
        ReachedHolds(e, j, p, s, k);
        NoFailedGuard(e, p, s, k);
        ThrowMovesNothing(e, j, p[..k], p[k], At(e, p, s, k));
        ThrowKeepsDst(e, j, p, s, k);
        DoublyFailed(e, j, p, s, Exec(e, p, s).s);
      }
    }
  }

  lemma ThrowKeepsDst(e: Env, j: Job, p: seq<Cmd>, s: State, k: nat)
    requires Follows(e, j, p) && Fresh(j, s) && AtSource(e, j, s.w) && StopsAt(e, p, s, k)
    ensures Step(e, p[k], At(e, p, s, k)).s.w.dst <= s.w.dst + SetOf(Images(e, j))
    ensures ReclaimDisks in Step(e, p[k], At(e, p, s, k)).s.c.stack ==>
      Step(e, p[k], At(e, p, s, k)).s.c.images == Images(e, j)
  {
    ReachedMap(e, j, p, s, k);
    ReachedHolds(e, j, p, s, k);
    PrimariesFollowCalls(e, s.w, At(e, p, s, k).w);
    NoFailedGuard(e, p, s, k);
    ThrowMovesNothing(e, j, p[..k], p[k], At(e, p, s, k));
  }

  lemma DoublyFailed(e: Env, j: Job, p: seq<Cmd>, s: State, f: State)
    requires AtSource(e, j, s.w) && Extends(e, s.w, f.w) && DoublyExactly(New(s.w, f.w), f.w)
    requires ReclaimDisks in f.c.stack ==> f.c.images == Images(e, j)
    ensures var w := Fail(e, f).s.w; DoublyExactly(New(s.w, w), w)
  {
    var r := Fail(e, f);
    var late := New(f.w, r.s.w);
    FailForces(e, f);
    FailCalls(e, f);
    FailGrows(e, f);
    PrimariesFollowCalls(e, s.w, f.w);
    ExtendsTrans(e, s.w, f.w, r.s.w);
    assert forall a | a in late :: RollbackVerb(a.verb);
    AcceptedNone(late, PromoteRemote);
    if ReclaimDisks !in f.c.stack {
      AcceptedNone(late, ForcePromote);
    }
    hide Fail, Extends, RollbackVerb;
    AcceptedConcat(New(s.w, f.w), late, ForcePromote);
    AcceptedConcat(New(s.w, f.w), late, PromoteRemote);
    assert AcceptedArgs(late, ForcePromote) <= SetOf(Images(e, j)) <= s.w.src;
    assert f.w.dst == s.w.dst + AcceptedArgs(New(s.w, f.w), PromoteRemote);
    hide AcceptedArgs, New, SetOf, Images;
    assert r.s.w.src * r.s.w.dst == f.w.src * f.w.dst + AcceptedArgs(late, ForcePromote) * f.w.dst;
  }

  /**
   Going forward, no image is ever primary on both sides: before, after or at the failure of any command, as long as
   no abort arrives once the rollback of the demotes is registered. Earlier aborts do no harm.
   */
  lemma NeverDoublyPrimary(e: Env, j: Job, p: seq<Cmd>, s: State, k: nat)
    requires Follows(e, j, p) && Fresh(j, s) && AtSource(e, j, s.w) && Reaches(e, p, s, k)
    ensures !AbortedLate(p[..k]) ==> At(e, p, s, k).w.src !! At(e, p, s, k).w.dst
    ensures k < |p| && !AbortedLate(p[..k + 1]) ==> var w := Step(e, p[k], At(e, p, s, k)).s.w; w.src !! w.dst
  {
    DoublyPrimaryExactly(e, j, p, s, k);
    hide Follows, Step, Exec, AcceptedArgs, AbortedLate;
    if !AbortedLate(p[..k]) {
      NoneForced(e, j, p, s, k);
      NotDoubly(New(s.w, At(e, p, s, k).w), At(e, p, s, k).w);
    }
    if k < |p| && !AbortedLate(p[..k + 1]) {
      NoneForcedNext(e, j, p, s, k);
      NotDoubly(New(s.w, Step(e, p[k], At(e, p, s, k)).s.w), Step(e, p[k], At(e, p, s, k)).s.w);
    }
  }

  lemma NotDoubly(calls: seq<Attempt>, w: World)
    requires DoublyExactly(calls, w) && AcceptedArgs(calls, ForcePromote) == {}
    ensures w.src !! w.dst
  {
    forall image | image in w.src
      ensures image !in w.dst
    {
      assert image in w.dst ==> image in w.src * w.dst;
    }
  }

  lemma NoneForced(e: Env, j: Job, p: seq<Cmd>, s: State, k: nat)
    requires Follows(e, j, p) && Fresh(j, s) && AtSource(e, j, s.w) && Reaches(e, p, s, k) && !AbortedLate(p[..k])
    ensures AcceptedArgs(New(s.w, At(e, p, s, k).w), ForcePromote) == {}
  {
    ReachedMap(e, j, p, s, k);
  }

  lemma NoneForcedNext(e: Env, j: Job, p: seq<Cmd>, s: State, k: nat)
    requires Follows(e, j, p) && Fresh(j, s) && AtSource(e, j, s.w) && Reaches(e, p, s, k)
    requires k < |p| && !AbortedLate(p[..k + 1])
    ensures AcceptedArgs(New(s.w, Step(e, p[k], At(e, p, s, k)).s.w), ForcePromote) == {}
  {
    var w, w1 := At(e, p, s, k).w, Step(e, p[k], At(e, p, s, k)).s.w;
    assert p[..k + 1] == p[..k] + [p[k]];
    AbortedLateSnoc(p[..k], p[k]);
    NoneForced(e, j, p, s, k);
    ReachedHolds(e, j, p, s, k);
    NoFailedGuard(e, p, s, k);
    StepCalls(e, j, s, p[..k], p[k], At(e, p, s, k));
    ReachedMap(e, j, p, s, k);
    hide Step, Exec, AcceptedArgs, AbortedLate, Extends, New, SourceIs, Holding;
    ExtendsTrans(e, s.w, w, w1);
    AcceptedConcat(New(s.w, w), New(w, w1), ForcePromote);
  }

  /**
   The exact primary map of a completed run, aborts included. An image is primary at the destination exactly when
   there is a stub for the destination and that agent accepted the promote: a refused promote and a missing stub both
   go unnoticed. The source has lost all images but those an abort force-promoted; without a stub it has lost none.
   */
  lemma CompletedMap(e: Env, j: Job, p: seq<Cmd>, s: State)
    requires Follows(e, j, p) && Fresh(j, s) && AtSource(e, j, s.w)
    requires Exec(e, p, s).Ran? && AllDone(p, Promote(e), Images(e, j)) && RECLAIM in p
    ensures var w := Exec(e, p, s).s.w;
      var forced := AcceptedArgs(New(s.w, w), ForcePromote);
      (forall image | image in Images(e, j) ::
        image in w.dst <==> e.destClient && Attempt(PromoteRemote, image, Accepted) in New(s.w, w)) &&
      (if e.destClient then w.src == s.w.src - SetOf(Images(e, j)) + forced else w.src == s.w.src) &&
      (!AbortedLate(p) ==> forced == {})
  {
    var w := Exec(e, p, s).s.w;
    assert p[..|p|] == p;
    ReachedMap(e, j, p, s, |p|);
    ReachedHolds(e, j, p, s, |p|);
    RegisteredMeansDemoted(e, j, p, s, |p|);
    assert DemotedBy(p) == SetOf(Images(e, j));
    PrimariesFollowCalls(e, s.w, w);
    forall image | image in Images(e, j)
      ensures image in w.dst <==> e.destClient && Attempt(PromoteRemote, image, Accepted) in New(s.w, w)
    {
      AcceptedIff(New(s.w, w), PromoteRemote, image);
    }
    if !e.destClient {
      PromotedLocally(e, j, p, s);
    }
  }

  lemma AcceptedIff(calls: seq<Attempt>, verb: Verb, arg: string)
    ensures arg in AcceptedArgs(calls, verb) <==> Attempt(verb, arg, Accepted) in calls
  {
    if arg in AcceptedArgs(calls, verb) {
      var a :| a in calls && a.verb == verb && a.reply.Accepted? && a.arg == arg;
      assert a == Attempt(verb, arg, Accepted);
    }
  }

  lemma PromotedLocally(e: Env, j: Job, p: seq<Cmd>, s: State)
    requires Exec(e, p, s).Ran? && AllDone(p, PromoteLocal, Images(e, j))
    ensures SetOf(Images(e, j)) <= AcceptedArgs(New(s.w, Exec(e, p, s).s.w), PromoteLocal)
  {
    var w := Exec(e, p, s).s.w;
    assert p[..|p|] == p;
    hide Exec, AcceptedArgs;
    forall image | image in Images(e, j)
      ensures image in AcceptedArgs(New(s.w, w), PromoteLocal)
    {
      var n :| 0 <= n < |Images(e, j)| && Images(e, j)[n] == image;
      var i :| 0 <= i < |p| && p[i] == Do(PromoteLocal, image);
      CompletedCall(e, p, s, i, |p|);
      var t :| |s.w.trace| <= t < |w.trace| && w.trace[t] == Attempt(PromoteLocal, image, Accepted);
      assert New(s.w, w)[t - |s.w.trace|] == w.trace[t];
      AcceptedIff(New(s.w, w), PromoteLocal, image);
    }
  }
}
