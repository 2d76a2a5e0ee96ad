/** Who announces the addresses of the VM while a hand-off runs, and what its rollback restores. */
module Routes {
  import opened Clusters
  import opened Protocol
  import opened Traces
  import opened Discipline
  import opened Engines
  import opened Primaries

  lemma SetOfSnoc(xs: seq<string>, k: nat)
    requires k < |xs|
    ensures SetOf(xs[..k + 1]) == SetOf(xs[..k]) + {xs[k]}
  {
    assert xs[..k + 1] == xs[..k] + [xs[k]];
  }

  /** The two announcement sets after the first `k` calls of a hand-off. */
  predicate HandoffState(w0: World, prefixes: seq<string>, client: Client, k: nat, w: World) {
    if k <= |prefixes| then
      w.srcRoutes == w0.srcRoutes && w.dstRoutes == w0.dstRoutes + SetOf(prefixes[..k])
    else
      w.dstRoutes == w0.dstRoutes + SetOf(prefixes) &&
      w.srcRoutes == w0.srcRoutes - AcceptedArgs(New(w0, w), RemoteWithdraw(ToSource))
  }

  /** What a call does to the source's announcements. */
  predicate SourceLaw(w0: World, w1: World) {
    (forall a | a in New(w0, w1) :: a.verb != RemoteAnnounce(ToSource)) ==>
      w1.srcRoutes == w0.srcRoutes - AcceptedArgs(New(w0, w1), RemoteWithdraw(ToSource))
  }

  lemma SourceLawOne(e: Env, w: World, verb: Verb, arg: string)
    ensures SourceLaw(w, After(e, w, verb, arg))
  {
    var a := Attempt(verb, arg, ReplyTo(e, |w.trace|, verb));
    AfterExtends(e, w, verb, arg);
    AcceptedOne(a, RemoteWithdraw(ToSource));
    assert a in New(w, After(e, w, verb, arg));
  }

  lemma SourceLawTrans(w0: World, w: World, w1: World)
    requires SourceLaw(w0, w) && SourceLaw(w, w1) && New(w0, w1) == New(w0, w) + New(w, w1)
    ensures SourceLaw(w0, w1)
  {
    AcceptedConcat(New(w0, w), New(w, w1), RemoteWithdraw(ToSource));
    if forall a | a in New(w0, w1) :: a.verb != RemoteAnnounce(ToSource) {
      assert forall a | a in New(w0, w) :: a in New(w0, w1);
      assert forall a | a in New(w, w1) :: a in New(w0, w1);
    }
  }

  lemma {:induction false} SourceRoutesFollowCalls(e: Env, w0: World, w1: World)
    requires Extends(e, w0, w1)
    ensures SourceLaw(w0, w1)
    decreases |w1.trace| - |w0.trace|
  {
    var calls := New(w0, w1);
    if calls != [] {
      var w := After(e, w0, calls[0].verb, calls[0].arg);
      ReplayTrace(e, w, calls[1..]);
      assert New(w, w1) == calls[1..];
      AfterExtends(e, w0, calls[0].verb, calls[0].arg);
      ExtendsTrans(e, w0, w, w1);
      SourceRoutesFollowCalls(e, w, w1);
      SourceLawOne(e, w0, calls[0].verb, calls[0].arg);
      SourceLawTrans(w0, w, w1);
    }
  }

  lemma {:induction false} HandoffReached(e: Env, prefixes: seq<string>, client: Client, s: State, k: nat)
    requires !client.ToDest? && Reaches(e, Handoff(prefixes, client), s, k)
    ensures HandoffState(s.w, prefixes, client, k, At(e, Handoff(prefixes, client), s, k).w)
    decreases k
  {
    var p := Handoff(prefixes, client);
    if k == 0 {
      assert p[..0] == [];
      assert SetOf(prefixes[..0]) == {};
    } else {
      ReachPrevious(e, p, s, k - 1, k);
      HandoffReached(e, prefixes, client, s, k - 1);
      HandoffCall(prefixes, client, k - 1);
      RouteStep(e, p[k - 1], At(e, p, s, k - 1));
      hide Exec, Step, Handoff;
      if k <= |prefixes| {
        SetOfSnoc(prefixes, k - 1);
      } else {
        assert prefixes[..|prefixes|] == prefixes;
        HandoffSource(e, prefixes, client, s, k);
      }
    }
  }

  lemma HandoffCall(prefixes: seq<string>, client: Client, i: nat)
    requires i < |Handoff(prefixes, client)|
    ensures |Handoff(prefixes, client)| == 2 * |prefixes|
    ensures Handoff(prefixes, client)[i] ==
            if i < |prefixes| then Do(Announce, prefixes[i]) else Try(RemoteWithdraw(client), prefixes[i - |prefixes|])
  {
  }

  lemma RouteStep(e: Env, c: Cmd, s: State)
    requires Step(e, c, s).Ran?
    ensures c.Do? && c.verb.Announce? ==>
      Step(e, c, s).s.w.dstRoutes == s.w.dstRoutes + {c.arg} && Step(e, c, s).s.w.srcRoutes == s.w.srcRoutes
    ensures c.Try? && c.verb.RemoteWithdraw? && !c.verb.client.ToDest? ==>
      Step(e, c, s).s.w.dstRoutes == s.w.dstRoutes
  {
  }

  lemma HandoffSource(e: Env, prefixes: seq<string>, client: Client, s: State, k: nat)
    requires Reaches(e, Handoff(prefixes, client), s, k)
    ensures var w := At(e, Handoff(prefixes, client), s, k).w;
      w.srcRoutes == s.w.srcRoutes - AcceptedArgs(New(s.w, w), RemoteWithdraw(ToSource))
  {
    var p := Handoff(prefixes, client);
    var w := At(e, p, s, k).w;
    ExecExtends(e, p[..k], s);
    SourceRoutesFollowCalls(e, s.w, w);
    var ok := (v: Verb) => v != RemoteAnnounce(ToSource);
    forall c, v | c in p[..k] && Issues(c, v)
      ensures ok(v)
    {
      HandoffVerbs(prefixes, client, c);
    }
    ExecIssues(e, p[..k], s, ok);
    NoneAnnounced(s.w, w, ok);
  }

  lemma HandoffVerbs(prefixes: seq<string>, client: Client, c: Cmd)
    requires c in Handoff(prefixes, client)
    ensures (c.Do? && c.verb.Announce?) || (c.Try? && c.verb.RemoteWithdraw?)
  {
  }

  lemma NoneAnnounced(w0: World, w1: World, ok: Verb -> bool)
    requires forall i | 0 <= i < |New(w0, w1)| :: ok(New(w0, w1)[i].verb)
    requires !ok(RemoteAnnounce(ToSource))
    ensures forall a | a in New(w0, w1) :: a.verb != RemoteAnnounce(ToSource)
  {
  }

  /** If no command issues a verb, no call of the execution has it. */
  lemma {:induction false} ExecIssues(e: Env, p: seq<Cmd>, s: State, ok: Verb -> bool)
    requires forall c, v | c in p && Issues(c, v) :: ok(v)
    ensures Grows(e, s.w, Exec(e, p, s).s.w, ok)
    decreases |p|
  {
    ExtendsSelf(e, s.w);
    if p != [] {
      StepGrows(e, p[0], s);
      var r := Step(e, p[0], s);
      assert p[0] in p;
      if r.Ran? {
        assert forall c | c in p[1..] :: c in p;
        ExecIssues(e, p[1..], r.s, ok);
        GrowsTrans(e, s.w, r.s.w, Exec(e, p[1..], r.s).s.w, ok);
      }
    }
  }

  /**
   Make before break: if every prefix starts announced at the source, then before and after each call
   of the hand-off, including one that raises, every prefix is announced on some side, nothing else is
   touched at the source, and a hand-off that returns leaves all of them announced at the destination.
   */
  lemma MakeBeforeBreak(e: Env, prefixes: seq<string>, client: Client, s: State, k: nat)
    requires !client.ToDest? && SetOf(prefixes) <= s.w.srcRoutes
    requires Reaches(e, Handoff(prefixes, client), s, k)
    ensures var p := Handoff(prefixes, client);
      var w := At(e, p, s, k).w;
      SetOf(prefixes) <= w.srcRoutes + w.dstRoutes &&
      s.w.srcRoutes - SetOf(prefixes) <= w.srcRoutes <= s.w.srcRoutes &&
      s.w.dstRoutes <= w.dstRoutes <= s.w.dstRoutes + SetOf(prefixes) &&
      (k < |p| ==> var w1 := Step(e, p[k], At(e, p, s, k)).s.w;
        SetOf(prefixes) <= w1.srcRoutes + w1.dstRoutes) &&
      (k == |p| ==> SetOf(prefixes) <= w.dstRoutes)
  {
    var p := Handoff(prefixes, client);
    var s1 := At(e, p, s, k);
    HandoffReached(e, prefixes, client, s, k);
    HandoffBounds(e, prefixes, client, s, k);
    assert prefixes[..|prefixes|] == prefixes;
    if k < |p| {
      ReachNext(e, p, s, k);
      if Step(e, p[k], s1).Ran? {
        HandoffReached(e, prefixes, client, s, k + 1);
        HandoffBounds(e, prefixes, client, s, k + 1);
      } else {
        HandoffCall(prefixes, client, k);
      }
      hide Exec, Handoff, AcceptedArgs, New;
    }
  }

  lemma HandoffBounds(e: Env, prefixes: seq<string>, client: Client, s: State, k: nat)
    requires !client.ToDest? && Reaches(e, Handoff(prefixes, client), s, k)
    ensures var w := At(e, Handoff(prefixes, client), s, k).w;
      s.w.srcRoutes - SetOf(prefixes) <= w.srcRoutes <= s.w.srcRoutes &&
      (k <= |prefixes| ==> w.srcRoutes == s.w.srcRoutes)
    decreases k
  {
    var p := Handoff(prefixes, client);
    HandoffReached(e, prefixes, client, s, k);
    if k == 0 {
      assert p[..0] == [];
    } else {
      ReachPrevious(e, p, s, k - 1, k);
      HandoffBounds(e, prefixes, client, s, k - 1);
      assert p[k - 1].arg in SetOf(prefixes);
    }
  }

  // ---------- rollback ----------

  /** From this tick on every call is accepted (through a stub that exists). */
  ghost predicate AllSucceed(e: Env, from: nat) {
    forall t: nat | from <= t :: !e.raises(t) && !e.refuses(t)
  }

  /** Exactly where the prefixes are announced after a rollback whose calls all succeed, for each kind of stub. */
  lemma {:induction false} ReverseOutcome(e: Env, prefixes: seq<string>, client: Client, w: World)
    requires AllSucceed(e, |w.trace|)
    ensures var r := ReverseAll(e, prefixes, client, w);
      r.ok &&
      r.w.srcRoutes == w.srcRoutes + (if client.ToSource? then SetOf(prefixes) else {}) &&
      r.w.dstRoutes == if client.ToDest? then w.dstRoutes + SetOf(prefixes) else w.dstRoutes - SetOf(prefixes)
    decreases |prefixes|
  {
    if prefixes != [] {
      var w1 := After(e, w, Withdraw, prefixes[0]);
      var w2 := After(e, w1, RemoteAnnounce(client), prefixes[0]);
      ReverseOne(e, prefixes[0], client, w);
      hide After, ReplyTo;
      ReverseOutcome(e, prefixes[1..], client, w2);
      assert prefixes == [prefixes[0]] + prefixes[1..];
      assert SetOf(prefixes) == {prefixes[0]} + SetOf(prefixes[1..]);
    }
  }

  lemma ReverseOne(e: Env, prefix: string, client: Client, w: World)
    requires AllSucceed(e, |w.trace|)
    ensures var w1 := After(e, w, Withdraw, prefix);
      var w2 := After(e, w1, RemoteAnnounce(client), prefix);
      !ReplyTo(e, |w.trace|, Withdraw).Raised? && |w2.trace| == |w.trace| + 2 &&
      w2.srcRoutes == w.srcRoutes + (if client.ToSource? then {prefix} else {}) &&
      w2.dstRoutes == if client.ToDest? then w.dstRoutes + {prefix} else w.dstRoutes - {prefix}
  {
    var w1 := After(e, w, Withdraw, prefix);
    assert !e.raises(|w.trace|) && !e.raises(|w1.trace|) && !e.refuses(|w1.trace|);
  }

  lemma HandoffSucceeds(e: Env, prefixes: seq<string>, s: State)
    requires AllSucceed(e, |s.w.trace|)
    ensures var r := Exec(e, Handoff(prefixes, ToSource), s);
      r.Ran? && |s.w.trace| <= |r.s.w.trace| &&
      r.s.w.srcRoutes == s.w.srcRoutes - SetOf(prefixes) && r.s.w.dstRoutes == s.w.dstRoutes + SetOf(prefixes)
  {
    AnnouncesSucceed(e, prefixes, s);
    var mid := Exec(e, Each(Announce, prefixes), s).s;
    WithdrawsSucceed(e, prefixes, mid);
    ExecConcat(e, Each(Announce, prefixes), Tries(RemoteWithdraw(ToSource), prefixes), s);
  }

  lemma {:induction false} AnnouncesSucceed(e: Env, prefixes: seq<string>, s: State)
    requires AllSucceed(e, |s.w.trace|)
    ensures var r := Exec(e, Each(Announce, prefixes), s);
      r.Ran? && |s.w.trace| <= |r.s.w.trace| &&
      r.s.w.srcRoutes == s.w.srcRoutes && r.s.w.dstRoutes == s.w.dstRoutes + SetOf(prefixes)
    decreases |prefixes|
  {
    if prefixes != [] {
      var s1 := Invoke(e, s, Announce, prefixes[0]);
      assert !e.raises(|s.w.trace|);
      assert Each(Announce, prefixes)[1..] == Each(Announce, prefixes[1..]);
      AnnouncesSucceed(e, prefixes[1..], s1);
      assert prefixes == [prefixes[0]] + prefixes[1..];
      assert SetOf(prefixes) == {prefixes[0]} + SetOf(prefixes[1..]);
    }
  }

  lemma {:induction false} WithdrawsSucceed(e: Env, prefixes: seq<string>, s: State)
    requires AllSucceed(e, |s.w.trace|)
    ensures var r := Exec(e, Tries(RemoteWithdraw(ToSource), prefixes), s);
      r.Ran? && |s.w.trace| <= |r.s.w.trace| &&
      r.s.w.srcRoutes == s.w.srcRoutes - SetOf(prefixes) && r.s.w.dstRoutes == s.w.dstRoutes
    decreases |prefixes|
  {
    if prefixes != [] {
      var s1 := Invoke(e, s, RemoteWithdraw(ToSource), prefixes[0]);
      assert !e.raises(|s.w.trace|) && !e.refuses(|s.w.trace|);
      assert Tries(RemoteWithdraw(ToSource), prefixes)[1..] == Tries(RemoteWithdraw(ToSource), prefixes[1..]);
      WithdrawsSucceed(e, prefixes[1..], s1);
      assert prefixes == [prefixes[0]] + prefixes[1..];
      assert SetOf(prefixes) == {prefixes[0]} + SetOf(prefixes[1..]);
    }
  }

  /** Where the prefixes must be announced before a hand-off for its rollback through this stub to restore that. */
  predicate Restorable(prefixes: seq<string>, client: Client, src: set<string>, dst: set<string>) {
    match client
    case ToSource => SetOf(prefixes) <= src && SetOf(prefixes) !! dst
    case ToDest => SetOf(prefixes) !! src && SetOf(prefixes) <= dst
    case NoClient => SetOf(prefixes) !! src && SetOf(prefixes) !! dst
  }

  /**
   A hand-off followed by its rollback, all calls succeeding, restores the announcements of both sides exactly if the
   prefixes were announced where the rollback's stub puts them back: with the source's stub at the source and not at
   the destination, with the destination's, which the cold engine passes, at the destination and not at the source.
   */
  lemma RollbackRestoresIff(e: Env, prefixes: seq<string>, client: Client, s: State)
    requires AllSucceed(e, |s.w.trace|)
    ensures var mid := Exec(e, Handoff(prefixes, ToSource), s);
      var w := ReverseAll(e, prefixes, client, mid.s.w).w;
      mid.Ran? &&
      (w.srcRoutes == s.w.srcRoutes && w.dstRoutes == s.w.dstRoutes <==>
        Restorable(prefixes, client, s.w.srcRoutes, s.w.dstRoutes))
  {
    HandoffSucceeds(e, prefixes, s);
    var mid := Exec(e, Handoff(prefixes, ToSource), s);
    ReverseOutcome(e, prefixes, client, mid.s.w);
    hide Exec, Handoff, ReverseAll, SetOf;
    RestoredIff(prefixes, client, s.w.srcRoutes, s.w.dstRoutes);
  }

  lemma RestoredIff(prefixes: seq<string>, client: Client, src: set<string>, dst: set<string>)
    ensures var p := SetOf(prefixes);
      var src1 := src - p + if client.ToSource? then p else {};
      var dst1 := if client.ToDest? then dst + p + p else dst + p - p;
      (src1 == src && dst1 == dst <==> Restorable(prefixes, client, src, dst))
  {
    var p := SetOf(prefixes);
    hide SetOf;
    PutBackIff(src, p);
    PutBackIff(dst, p);
    assert dst + p + p == dst + p && dst + p - p == dst - p;
  }

  lemma PutBackIff(a: set<string>, p: set<string>)
    ensures a - p == a <==> p !! a
    ensures a - p + p == a <==> p <= a
    ensures a + p == a <==> p <= a
    ensures a - p + {} == a - p
  {
    if a - p == a {
      assert forall x | x in p :: x !in a - p;
    }
    if a - p + p == a || a + p == a {
      assert forall x | x in p :: x in a - p + p && x in a + p;
    }
  }

  lemma AllowedIssues(e: Env, j: Job, p: seq<Cmd>, n: nat, ok: Verb -> bool)
    requires Follows(e, j, p) && n <= |p| && (n > 0 ==> Guard(false) !in p[..n - 1])
    requires forall v | v != RemoteAnnounce(ToSource) :: ok(v)
    ensures forall c, v | c in p[..n] && Issues(c, v) :: ok(v)
  {
    forall c, v | c in p[..n] && Issues(c, v)
      ensures ok(v)
    {
      var k :| 0 <= k < n && p[k] == c;
      assert Guard(false) !in p[..k];
      assert AllowedCmd(e, j, p[..k], p[k]);
    }
  }

  lemma NeverReannounced(e: Env, j: Job, p: seq<Cmd>, s: State, ok: Verb -> bool)
    requires Follows(e, j, p) && ok == ((v: Verb) => v != RemoteAnnounce(ToSource))
    ensures Grows(e, s.w, Exec(e, p, s).s.w, ok)
  {
    assert p[..|p|] == p;
    var n := |p|;
    if Exec(e, p, s).Ran? {
      NoFailedGuard(e, p, s, |p|);
    } else {
      var k := StopExists(e, p, s, |p|);
      NoFailedGuard(e, p, s, k);
      ReachNext(e, p, s, k);
      n := k + 1;
    }
    AllowedIssues(e, j, p, n, ok);
    ExecIssues(e, p[..n], s, ok);
  }

  /**
   Over whole runs, aborts and rollbacks included, no engine ever announces a prefix at the source
   again: its announcements there only lose what the source agreed to withdraw.
   */
  lemma SourceRoutesOnlyShrink(e: Env, j: Job, p: seq<Cmd>, s: State)
    requires Follows(e, j, p)
    ensures var w := Run(e, p, s).s.w;
      w.srcRoutes == s.w.srcRoutes - AcceptedArgs(New(s.w, w), RemoteWithdraw(ToSource))
  {
    var ok := (v: Verb) => v != RemoteAnnounce(ToSource);
    var x := Exec(e, p, s);
    var r := Run(e, p, s);
    NeverReannounced(e, j, p, s, ok);
    if x.Threw? {
      FailGrows(e, x.s);
      GrowsMore(e, x.s.w, r.s.w, RollbackVerb, ok);
      GrowsTrans(e, s.w, x.s.w, r.s.w, ok);
    }
    hide Exec, Run, Follows, AcceptedArgs;
    SourceRoutesFollowCalls(e, s.w, r.s.w);
    NoneAnnounced(s.w, r.s.w, ok);
  }
}
