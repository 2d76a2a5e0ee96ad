/** When the source VM may be deleted. */
module Deletion {
  import opened Clusters
  import opened Protocol
  import opened Traces
  import opened Discipline
  import opened Primaries

  lemma AllCompleted(e: Env, p: seq<Cmd>, s: State, k: nat, verb: Verb, args: seq<string>)
    requires Reaches(e, p, s, k) && AllDone(p[..k], verb, args)
    ensures var trace := At(e, p, s, k).w.trace;
      forall i | 0 <= i < |args| ::
        Answered(trace, |s.w.trace|, |trace|, verb, args[i]) &&
        (!Remote(verb) ==> Succeeded(trace, |s.w.trace|, |trace|, verb, args[i]))
  {
    forall i | 0 <= i < |args|
      ensures var trace := At(e, p, s, k).w.trace;
        Answered(trace, |s.w.trace|, |trace|, verb, args[i]) &&
        (!Remote(verb) ==> Succeeded(trace, |s.w.trace|, |trace|, verb, args[i]))
    {
      var n :| 0 <= n < k && p[n] == Do(verb, args[i]);
      CompletedCall(e, p, s, n, k);
    }
  }

  lemma Widen(short: seq<Attempt>, trace: seq<Attempt>, from: nat, verb: Verb, arg: string)
    requires short <= trace
    ensures Answered(short, from, |short|, verb, arg) ==> Answered(trace, from, |short|, verb, arg)
    ensures Succeeded(short, from, |short|, verb, arg) ==> Succeeded(trace, from, |short|, verb, arg)
  {
  }

  lemma NewHolds(e: Env, w0: World, w1: World, ok: Verb -> bool)
    requires Grows(e, w0, w1, ok)
    ensures forall t | |w0.trace| <= t < |w1.trace| :: ok(w1.trace[t].verb)
  {
    forall t | |w0.trace| <= t < |w1.trace|
      ensures ok(w1.trace[t].verb)
    {
      assert New(w0, w1)[t - |w0.trace|] == w1.trace[t];
    }
  }

  /** A call that no rollback makes was made by a command of the engine's own sequence. */
  lemma LocateForward(e: Env, p: seq<Cmd>, s: State, t: nat) returns (k: nat)
    requires |s.w.trace| <= t < |Run(e, p, s).s.w.trace| && !RollbackVerb(Run(e, p, s).s.w.trace[t].verb)
    ensures k < |p| && Reaches(e, p, s, k)
    ensures |At(e, p, s, k).w.trace| <= t < |Step(e, p[k], At(e, p, s, k)).s.w.trace|
    ensures Extends(e, Step(e, p[k], At(e, p, s, k)).s.w, Run(e, p, s).s.w)
    ensures Issues(p[k], Run(e, p, s).s.w.trace[t].verb)
    ensures Guard(false) !in p[..k]
  {
    var x := Exec(e, p, s);
    var r := Run(e, p, s);
    RunReplaysItsTrace(e, p, s);
    if x.Threw? {
      FailGrows(e, x.s);
      NewHolds(e, x.s.w, r.s.w, RollbackVerb);
    }
    k := Locate(e, p, s, t);
    var s1 := At(e, p, s, k);
    ExtendsTrans(e, Step(e, p[k], s1).s.w, x.s.w, r.s.w);
    StepGrows(e, p[k], s1);
    assert New(s1.w, Step(e, p[k], s1).s.w)[t - |s1.w.trace|] == r.s.w.trace[t];
    NoFailedGuard(e, p, s, k);
  }

  /** What must have happened before tick `t` for the deletion of the source VM at that tick. */
  predicate SafeToDelete(e: Env, j: Job, trace: seq<Attempt>, from: nat, t: nat) {
    (forall i | 0 <= i < |Images(e, j)| ::
      Succeeded(trace, from, t, Demote, Images(e, j)[i]) && Answered(trace, from, t, Promote(e), Images(e, j)[i])) &&
    (forall i | 0 <= i < |Prefixes(e)| :: Succeeded(trace, from, t, Announce, Prefixes(e)[i]))
  }

  lemma LocateDelete(e: Env, j: Job, p: seq<Cmd>, s: State, t: nat) returns (k: nat)
    requires Follows(e, j, p)
    requires |s.w.trace| <= t < |Run(e, p, s).s.w.trace| && Run(e, p, s).s.w.trace[t].verb.DeleteVm?
    ensures k < |p| && Reaches(e, p, s, k) && p[k].Try? && p[k].verb.DeleteVm? && AllowedCmd(e, j, p[..k], p[k])
    ensures Run(e, p, s).s.w.trace[t].arg == j.vmId
    ensures |At(e, p, s, k).w.trace| == t && At(e, p, s, k).w.trace <= Run(e, p, s).s.w.trace
    ensures NoDelete(p[..k])
  {
    k := LocateForward(e, p, s, t);
    var s1 := At(e, p, s, k);
    assert p[k].Try? && AllowedCmd(e, j, p[..k], p[k]);
    AfterExtends(e, s1.w, p[k].verb, p[k].arg);
    assert Step(e, p[k], s1).s.w.trace[t] == Attempt(p[k].verb, p[k].arg, ReplyTo(e, t, p[k].verb));
  }

  lemma DeletedOnce(e: Env, j: Job, p: seq<Cmd>, s: State, t: nat, t': nat)
    requires Follows(e, j, p)
    requires |s.w.trace| <= t < |Run(e, p, s).s.w.trace| && Run(e, p, s).s.w.trace[t].verb.DeleteVm?
    requires |s.w.trace| <= t' < |Run(e, p, s).s.w.trace| && Run(e, p, s).s.w.trace[t'].verb.DeleteVm?
    ensures t' == t
  {
    var k := LocateDelete(e, j, p, s, t);
    var k' := LocateDelete(e, j, p, s, t');
    hide AllowedCmd;
    SameDelete(p, k, k');
  }

  lemma SameDelete(p: seq<Cmd>, k: nat, k': nat)
    requires k < |p| && p[k].Try? && p[k].verb.DeleteVm? && NoDelete(p[..k])
    requires k' < |p| && p[k'].Try? && p[k'].verb.DeleteVm? && NoDelete(p[..k'])
    ensures k == k'
  {
    NoneBefore(p, k);
    NoneBefore(p, k');
  }

  lemma NoneBefore(p: seq<Cmd>, k: nat)
    requires k <= |p| && NoDelete(p[..k])
    ensures forall i | 0 <= i < k :: !(p[i].Try? && p[i].verb.DeleteVm?)
  {
    forall i | 0 <= i < k
      ensures !(p[i].Try? && p[i].verb.DeleteVm?)
    {
      assert p[i] in p[..k];
    }
  }

  /**
   The deletion of the source VM is attempted at most once per run, and only after every image was
   demoted, every promote answered and every prefix announced, with aborts arriving at any time.
   */
  lemma DeletionSafety(e: Env, j: Job, p: seq<Cmd>, s: State, t: nat)
    requires Follows(e, j, p)
    requires |s.w.trace| <= t < |Run(e, p, s).s.w.trace| && Run(e, p, s).s.w.trace[t].verb.DeleteVm?
    ensures var trace := Run(e, p, s).s.w.trace;
      trace[t].arg == j.vmId && SafeToDelete(e, j, trace, |s.w.trace|, t) &&
      forall t' | |s.w.trace| <= t' < |trace| && trace[t'].verb.DeleteVm? :: t' == t
  {
    var trace := Run(e, p, s).s.w.trace;
    var k := LocateDelete(e, j, p, s, t);
    SafeWhenReached(e, j, p, s, k);
    hide Run, At, Follows, AllowedCmd, Reaches, SafeToDelete;
    WidenAll(e, j, At(e, p, s, k).w.trace, trace, |s.w.trace|);
    forall t' | |s.w.trace| <= t' < |trace| && trace[t'].verb.DeleteVm?
      ensures t' == t
    {
      DeletedOnce(e, j, p, s, t, t');
    }
  }

  /** Where the discipline allows the deletion, everything it needs has happened. */
  lemma SafeWhenReached(e: Env, j: Job, p: seq<Cmd>, s: State, k: nat)
    requires Follows(e, j, p) && k < |p| && Reaches(e, p, s, k)
    requires p[k].Try? && p[k].verb.DeleteVm? && AllowedCmd(e, j, p[..k], p[k])
    ensures var trace := At(e, p, s, k).w.trace; SafeToDelete(e, j, trace, |s.w.trace|, |trace|)
  {
    RegisteredMeansDemoted(e, j, p, s, k);
    hide Follows, Exec, Answered, Succeeded;
    AllCompleted(e, p, s, k, Demote, Images(e, j));
    AllCompleted(e, p, s, k, Promote(e), Images(e, j));
    AllCompleted(e, p, s, k, Announce, Prefixes(e));
  }

  lemma WidenAll(e: Env, j: Job, short: seq<Attempt>, trace: seq<Attempt>, from: nat)
    requires short <= trace && SafeToDelete(e, j, short, from, |short|)
    ensures SafeToDelete(e, j, trace, from, |short|)
  {
    forall i | 0 <= i < |Images(e, j)|
      ensures Succeeded(trace, from, |short|, Demote, Images(e, j)[i])
      ensures Answered(trace, from, |short|, Promote(e), Images(e, j)[i])
    {
      Widen(short, trace, from, Demote, Images(e, j)[i]);
      Widen(short, trace, from, Promote(e), Images(e, j)[i]);
    }
    forall i | 0 <= i < |Prefixes(e)|
      ensures Succeeded(trace, from, |short|, Announce, Prefixes(e)[i])
    {
      Widen(short, trace, from, Announce, Prefixes(e)[i]);
    }
  }

  lemma ReachedDeletes(e: Env, p: seq<Cmd>, s: State, k: nat) returns (t: nat)
    requires Reaches(e, p, s, k) && k < |p| && p[k].Try?
    ensures |s.w.trace| <= t < |Run(e, p, s).s.w.trace| && Run(e, p, s).s.w.trace[t].verb == p[k].verb
  {
    var s1 := At(e, p, s, k);
    t := |s1.w.trace|;
    ReachNext(e, p, s, k);
    ReachedExtends(e, p, s, 0, k);
    assert p[..0] == [];
    assert p == p[..k + 1] + p[k + 1..];
    ExecConcat(e, p[..k + 1], p[k + 1..], s);
    ExecExtends(e, p[k + 1..], Step(e, p[k], s1).s);
    RunReplaysItsTrace(e, p, s);
    assert Step(e, p[k], s1).s.w.trace[t].verb == p[k].verb;
  }

  /** The deletion is attempted exactly by the runs that get as far as its command, so by none that fails before. */
  lemma DeletionAttemptedIff(e: Env, j: Job, p: seq<Cmd>, s: State, k: nat)
    requires Follows(e, j, p) && k < |p| && p[k].Try? && p[k].verb.DeleteVm? && NoDelete(p[..k])
    ensures (exists t | |s.w.trace| <= t < |Run(e, p, s).s.w.trace| :: Run(e, p, s).s.w.trace[t].verb.DeleteVm?)
        <==> Reaches(e, p, s, k)
  {
    var trace := Run(e, p, s).s.w.trace;
    if exists t | |s.w.trace| <= t < |trace| :: trace[t].verb.DeleteVm? {
      var t :| |s.w.trace| <= t < |trace| && trace[t].verb.DeleteVm?;
      var i := LocateDelete(e, j, p, s, t);
      if k < i {
        ReachPrevious(e, p, s, k, i);
      }
      NoneBefore(p, k);
    }
    if Reaches(e, p, s, k) {
      var t := ReachedDeletes(e, p, s, k);
      assert trace[t].verb.DeleteVm?;
    }
  }
}
