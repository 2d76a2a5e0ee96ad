/**
 How the election role reaches the cluster's database row and the scheduler. A callback is invoked when the role has
 already changed, awaits the database, and only then sets the scheduler's flag; so it is a step of its own here.
 */
module Agent {
  import opened Election
  import opened Wrappers

  datatype ClusterRole = MasterRole | WorkerRole

  /** `scheduler` is the scheduler's master flag once there is a scheduler; `role` the row's role, if the row exists. */
  datatype AgentState = AgentState(role: Option<ClusterRole>, scheduler: Option<bool>)

  function RoleOf(callback: Callback): ClusterRole {
    if callback.Become? then MasterRole else WorkerRole
  }

  /** What one callback does once its database write has been answered. */
  function React(s: AgentState, callback: Callback, dbRaises: bool): AgentState {
    if dbRaises then s
    else AgentState(
      if s.role.Some? then Some(RoleOf(callback)) else None,
      if s.scheduler.Some? then Some(callback.Become?) else None)
  }

  class CnfAgent {
    var role: Option<ClusterRole>
    var scheduler: Option<bool>

    constructor (role: Option<ClusterRole>)
      ensures View() == AgentState(role, None)
    {
      this.role := role;
      scheduler := None;
    }

    ghost function View(): AgentState
      reads this
    {
      AgentState(role, scheduler)
    }

    method SetRole(newRole: ClusterRole, dbRaises: bool) returns (raised: bool)
      modifies this`role
      ensures raised <==> dbRaises
      ensures role == if dbRaises || old(role).None? then old(role) else Some(newRole)
    {
      raised := dbRaises;
      if !raised && role.Some? {
        role := Some(newRole);
      }
    }

    method OnBecomeMaster(dbRaises: bool) returns (raised: bool)
      modifies this
      ensures raised <==> dbRaises
      ensures View() == React(old(View()), Become, dbRaises)
    {
      raised := SetRole(MasterRole, dbRaises);
      if !raised && scheduler.Some? {
        scheduler := Some(true);
      }
    }

    method OnLoseMaster(dbRaises: bool) returns (raised: bool)
      modifies this
      ensures raised <==> dbRaises
      ensures View() == React(old(View()), Lose, dbRaises)
    {
      raised := SetRole(WorkerRole, dbRaises);
      if !raised && scheduler.Some? {
        scheduler := Some(false);
      }
    }

    method StartScheduler()
      modifies this
      ensures View() == old(View()).(scheduler := Some(false))
    {
      scheduler := Some(false);
    }
  }

  // ---------- the agents of all nodes, on top of the election ----------

  /**
   How an invoked callback ended: it set the flag, found no scheduler, its write raised, or its loop was cancelled.
   */
  datatype Outcome = Took | Missed | Failed | Dropped

  /**
   The agent of one node; `outcomes` are those of its election object's callback invocations, in order, and `first` is
   the role its row had at the start.
   */
  datatype Member = Member(state: AgentState, outcomes: seq<Outcome>, first: Option<ClusterRole>)

  datatype Federation = Federation(sys: Sys, members: seq<Member>)

  datatype Happening =
    | Start(id: string, role: Option<ClusterRole>)  // an agent starts its election
    | CreateScheduler(n: nat)                       // later in the same start-up
    | Elect(step: Step)
    | Complete(n: nat, dbRaises: bool)              // the pending callback's write is answered, and it goes on

  /** A callback is invoked and awaits the database. */
  predicate Pending(f: Federation, n: nat) {
    n < |f.sys.nodes| && n < |f.members| && |f.members[n].outcomes| < |f.sys.nodes[n].calls|
  }

  predicate Possible(f: Federation, h: Happening) {
    match h
    case Start(_, _) => true
    case CreateScheduler(n) => n < |f.members| && f.members[n].state.scheduler.None?
    case Elect(step) => !step.Join? && ((step.Begin? || step.Refresh?) ==> !Pending(f, step.n))
    case Complete(n, _) => Pending(f, n)
  }

  function Settle(m: Member, callback: Callback, dbRaises: bool): Member {
    m.(state := React(m.state, callback, dbRaises),
       outcomes := m.outcomes + [if dbRaises then Failed else if m.state.scheduler.Some? then Took else Missed])
  }

  function Happen(strict: bool, f: Federation, h: Happening): Federation {
    if !Possible(f, h) then f
    else
      match h
      case Start(id, role) =>
        Federation(Next(strict, f.sys, Join(id)), f.members + [Member(AgentState(role, None), [], role)])
      case CreateScheduler(n) =>
        var m := f.members[n];
        f.(members := f.members[n := m.(state := m.state.(scheduler := Some(false)))])
      case Elect(step) =>
        var sys := Next(strict, f.sys, step);
        if (step.Stop? || step.Crash?) && Pending(f, step.n) then
          var m := f.members[step.n];
          Federation(sys, f.members[step.n := m.(outcomes := m.outcomes + [Dropped])])
        else f.(sys := sys)
      case Complete(n, dbRaises) =>
        var m := f.members[n];
        f.(members := f.members[n := Settle(m, f.sys.nodes[n].calls[|m.outcomes|], dbRaises)])
  }

  function Unfold(strict: bool, f: Federation, hs: seq<Happening>): Federation
    decreases |hs|
  {
    if hs == [] then f else Unfold(strict, Happen(strict, f, hs[0]), hs[1..])
  }

  const NOBODY := Federation(START, [])

  // ---------- the invariant ----------

  /** How many callbacks had been invoked when the last one that set the flag was; 0 if none has. */
  function LastTook(outcomes: seq<Outcome>): nat {
    if outcomes == [] then 0
    else if outcomes[|outcomes| - 1].Took? then |outcomes|
    else LastTook(outcomes[..|outcomes| - 1])
  }

  lemma {:induction false} LastTookZero(outcomes: seq<Outcome>)
    ensures LastTook(outcomes) == 0 <==> forall i | 0 <= i < |outcomes| :: !outcomes[i].Took?
    decreases |outcomes|
  {
    if outcomes != [] {
      LastTookZero(outcomes[..|outcomes| - 1]);
    }
  }

  /** How many callbacks had been invoked when the last one whose write went through was; 0 if none has. */
  function LastWritten(outcomes: seq<Outcome>): (r: nat)
    ensures r <= |outcomes|
  {
    if outcomes == [] then 0
    else if outcomes[|outcomes| - 1].Took? || outcomes[|outcomes| - 1].Missed? then |outcomes|
    else LastWritten(outcomes[..|outcomes| - 1])
  }

  /** The row says what the last callback that wrote it said, or still what it said at first. */
  predicate RowOk(m: Member) {
    var written := LastWritten(m.outcomes);
    (m.state.role.Some? <==> m.first.Some?) &&
    (m.state.role.Some? ==>
      if written == 0 then m.state.role == m.first else m.state.role.value.MasterRole? <==> written % 2 == 1)
  }

  /** Callbacks find no scheduler only before any has found one. */
  predicate MissedFirst(outcomes: seq<Outcome>) {
    forall i, k | 0 <= i < k < |outcomes| && outcomes[k].Missed? :: !outcomes[i].Took?
  }

  predicate MemberOk(x: Node, m: Member) {
    RowOk(m) && MissedFirst(m.outcomes) && |m.outcomes| <= |x.calls| <= |m.outcomes| + 1 &&
      LastTook(m.outcomes) <= |m.outcomes| &&
    (|m.outcomes| < |x.calls| ==> x.flight.Idle? && x.running) &&
    (m.state.scheduler.None? ==> LastTook(m.outcomes) == 0) &&
    (m.state.scheduler.Some? ==> (m.state.scheduler.value <==> LastTook(m.outcomes) % 2 == 1))
  }

  predicate FedInv(f: Federation) {
    Inv(f.sys) && |f.members| == |f.sys.nodes| &&
    forall n | 0 <= n < |f.members| :: MemberOk(f.sys.nodes[n], f.members[n])
  }

  /** A step changes a node's callbacks only by recording an answer, and then by one at most. */
  lemma CallsStep(strict: bool, s: Sys, step: Step, n: nat)
    requires Inv(s) && n < |s.nodes|
    ensures var r := Next(strict, s, step);
      n < |r.nodes| && (!step.Join? ==> |r.nodes| == |s.nodes|) && s.nodes[n].calls <= r.nodes[n].calls &&
      (|s.nodes[n].calls| < |r.nodes[n].calls| ==>
        !s.nodes[n].flight.Idle? && |r.nodes[n].calls| == |s.nodes[n].calls| + 1 &&
        r.nodes[n].flight.Idle? && r.nodes[n].running) &&
      (!ActsFor(step, n) ==> r.nodes[n] == s.nodes[n])
  {
    ElectCount(strict, s, step);
    if ActsFor(step, n) {
      OwnCallsStep(strict, s, step, n);
    } else {
      OneLeavesAlone(strict, s, step, n);
    }
  }

  lemma OwnCallsStep(strict: bool, s: Sys, step: Step, n: nat)
    requires Inv(s) && n < |s.nodes| && ActsFor(step, n)
    ensures var r := Next(strict, s, step);
      n < |r.nodes| && s.nodes[n].calls <= r.nodes[n].calls &&
      (|s.nodes[n].calls| < |r.nodes[n].calls| ==>
        !s.nodes[n].flight.Idle? && |r.nodes[n].calls| == |s.nodes[n].calls| + 1 &&
        r.nodes[n].flight.Idle? && r.nodes[n].running)
  {
    assert NodeInSys(s, n);
  }

  /** A node with a pending callback makes no move but by being stopped. */
  lemma PendingStays(strict: bool, s: Sys, step: Step, n: nat)
    requires Inv(s) && n < |s.nodes| && s.nodes[n].flight.Idle? &&
             !(step.Begin? && step.n == n) && !(step.Refresh? && step.n == n)
    requires !((step.Stop? || step.Crash?) && step.n == n)
    ensures var r := Next(strict, s, step); n < |r.nodes| && r.nodes[n] == s.nodes[n]
  {
    assert NodeInSys(s, n);
  }

  lemma SettleOk(x: Node, m: Member, dbRaises: bool)
    requires NodeOk(x) && MemberOk(x, m) && |m.outcomes| < |x.calls|
    ensures MemberOk(x, Settle(m, x.calls[|m.outcomes|], dbRaises))
  {
    var callback := x.calls[|m.outcomes|];
    assert callback.Become? <==> (|m.outcomes| + 1) % 2 == 1;
    hide NodeOk, Alternates;
    if dbRaises {
      UnheardOk(x, m, Failed);
    } else if m.state.scheduler.None? {
      MissedOk(x, m, callback);
    } else {
      HeardOk(x, m, callback);
    }
  }

  lemma UnheardOk(x: Node, m: Member, o: Outcome)
    requires MemberOk(x, m) && |m.outcomes| < |x.calls| && (o.Failed? || o.Dropped?)
    ensures MemberOk(x, m.(outcomes := m.outcomes + [o]))
  {
    UnheardCounts(m.outcomes, o);
    hide LastTook, LastWritten;
  }

  lemma UnheardCounts(outcomes: seq<Outcome>, o: Outcome)
    requires o.Failed? || o.Dropped?
    ensures LastTook(outcomes + [o]) == LastTook(outcomes) && LastWritten(outcomes + [o]) == LastWritten(outcomes)
    ensures MissedFirst(outcomes) ==> MissedFirst(outcomes + [o])
  {
    assert (outcomes + [o])[..|outcomes|] == outcomes;
  }

  lemma MissedOk(x: Node, m: Member, callback: Callback)
    requires MemberOk(x, m) && |m.outcomes| < |x.calls| && m.state.scheduler.None?
    requires callback.Become? <==> (|m.outcomes| + 1) % 2 == 1
    ensures MemberOk(x, Settle(m, callback, false))
  {
    assert (m.outcomes + [Missed])[..|m.outcomes|] == m.outcomes;
    LastTookZero(m.outcomes);
  }

  lemma HeardOk(x: Node, m: Member, callback: Callback)
    requires MemberOk(x, m) && |m.outcomes| < |x.calls| && m.state.scheduler.Some?
    requires callback.Become? <==> (|m.outcomes| + 1) % 2 == 1
    ensures MemberOk(x, Settle(m, callback, false))
  {
  }

  lemma DroppedOk(x: Node, m: Member, y: Node)
    requires MemberOk(x, m) && |m.outcomes| < |x.calls| && y.calls == x.calls
    ensures MemberOk(y, m.(outcomes := m.outcomes + [Dropped]))
  {
    UnheardOk(x, m, Dropped);
  }

  lemma ElectOk(strict: bool, f: Federation, step: Step, n: nat)
    requires FedInv(f) && n < |f.members| && Possible(f, Elect(step))
    ensures var r := Happen(strict, f, Elect(step));
      n < |r.sys.nodes| && n < |r.members| && MemberOk(r.sys.nodes[n], r.members[n])
  {
    var x, m := f.sys.nodes[n], f.members[n];
    assert MemberOk(x, m);
    CallsStep(strict, f.sys, step, n);
    var y := Next(strict, f.sys, step).nodes[n];
    hide Next, Inv;
    if Pending(f, n) {
      if (step.Stop? || step.Crash?) && step.n == n {
        StopKeepsCalls(strict, f.sys, step);
        DroppedOk(x, m, y);
      } else {
        PendingStays(strict, f.sys, step, n);
      }
    }
  }

  lemma StopKeepsCalls(strict: bool, s: Sys, step: Step)
    requires (step.Stop? || step.Crash?) && step.n < |s.nodes|
    ensures Next(strict, s, step).nodes[step.n].calls == s.nodes[step.n].calls
  {
  }

  lemma HappenKeeps(strict: bool, f: Federation, h: Happening)
    requires FedInv(f)
    ensures FedInv(Happen(strict, f, h))
  {
    var r := Happen(strict, f, h);
    if Possible(f, h) {
      match h
      case Start(id, role) =>
        NextKeeps(strict, f.sys, Join(id));
        forall n | 0 <= n < |r.members|
          ensures MemberOk(r.sys.nodes[n], r.members[n])
        {
          assert n < |f.members| ==> MemberOk(f.sys.nodes[n], f.members[n]);
        }
      case CreateScheduler(n) =>
        assert MemberOk(f.sys.nodes[n], f.members[n]);
      case Elect(step) =>
        NextKeeps(strict, f.sys, step);
        if |f.members| > 0 {
          CallsStep(strict, f.sys, step, 0);
        }
        ElectCount(strict, f.sys, step);
        forall n | 0 <= n < |r.members|
          ensures MemberOk(r.sys.nodes[n], r.members[n])
        {
          ElectOk(strict, f, step, n);
        }
      case Complete(n, dbRaises) =>
        assert NodeInSys(f.sys, n) && MemberOk(f.sys.nodes[n], f.members[n]);
        SettleOk(f.sys.nodes[n], f.members[n], dbRaises);
    }
  }

  lemma ElectCount(strict: bool, s: Sys, step: Step)
    ensures |s.nodes| <= |Next(strict, s, step).nodes| && (!step.Join? ==> |Next(strict, s, step).nodes| == |s.nodes|)
  {
  }

  lemma {:induction false} UnfoldKeeps(strict: bool, f: Federation, hs: seq<Happening>)
    requires FedInv(f)
    ensures FedInv(Unfold(strict, f, hs))
    decreases |hs|
  {
    if hs != [] {
      HappenKeeps(strict, f, hs[0]);
      UnfoldKeeps(strict, Happen(strict, f, hs[0]), hs[1..]);
    }
  }

  // ---------- the flag against the role ----------

  /**
   How many callbacks of a node have been invoked since the last one that set the flag: those whose write failed, that
   were cancelled, that came before the scheduler existed, and the one that is pending.
   */
  function Unheard(f: Federation, n: nat): int
    requires n < |f.members| && n < |f.sys.nodes|
  {
    |f.sys.nodes[n].calls| - LastTook(f.members[n].outcomes)
  }

  /**
   When the scheduler's flag is the election role, at every await point of every run: exactly if the number of
   callbacks it has not heard of is even. The flag itself is set exactly if the last callback it heard of was a become.
   */
  lemma FlagAgreesIff(strict: bool, hs: seq<Happening>, n: nat)
    requires var f := Unfold(strict, NOBODY, hs); n < |f.members| && f.members[n].state.scheduler.Some?
    ensures var f := Unfold(strict, NOBODY, hs);
      var took := LastTook(f.members[n].outcomes);
      n < |f.sys.nodes| && 0 <= Unheard(f, n) &&
      (f.members[n].state.scheduler.value == f.sys.nodes[n].master <==> Unheard(f, n) % 2 == 0) &&
      (f.members[n].state.scheduler.value <==> took > 0 && f.sys.nodes[n].calls[took - 1].Become?)
  {
    UnfoldKeeps(strict, NOBODY, hs);
    var f := Unfold(strict, NOBODY, hs);
    assert MemberOk(f.sys.nodes[n], f.members[n]) && NodeInSys(f.sys, n);
    ParityOf(|f.sys.nodes[n].calls|, LastTook(f.members[n].outcomes));
  }

  lemma ParityOf(a: nat, b: nat)
    requires b <= a
    ensures (a - b) % 2 == 0 <==> a % 2 == b % 2
  {
  }

  /**
   When the cluster's row says the election role, in every reachable state: exactly if the number of callbacks since
   the last one that wrote it is even, or, if none has, if the role is the one the row had at the start.
   */
  lemma RowAgreesIff(strict: bool, hs: seq<Happening>, n: nat)
    requires var f := Unfold(strict, NOBODY, hs); n < |f.members| && f.members[n].state.role.Some?
    ensures var f := Unfold(strict, NOBODY, hs);
      n < |f.sys.nodes| &&
      var m, x := f.members[n], f.sys.nodes[n];
      var written := LastWritten(m.outcomes);
      m.first.Some? && written <= |x.calls| &&
      (m.state.role.value.MasterRole? == x.master <==>
        if written == 0 then m.first.value.MasterRole? == x.master else (|x.calls| - written) % 2 == 0)
  {
    UnfoldKeeps(strict, NOBODY, hs);
    var f := Unfold(strict, NOBODY, hs);
    assert MemberOk(f.sys.nodes[n], f.members[n]) && NodeInSys(f.sys, n);
    ParityOf(|f.sys.nodes[n].calls|, LastWritten(f.members[n].outcomes));
  }

  /**
   So with the scheduler there before the first callback, no failing write and no cancelled loop, the flag is the role
   exactly while no callback is pending.
   */
  lemma FlagFollowsRole(strict: bool, hs: seq<Happening>, n: nat)
    requires var f := Unfold(strict, NOBODY, hs);
      n < |f.members| && f.members[n].state.scheduler.Some? && forall o | o in f.members[n].outcomes :: o.Took?
    ensures var f := Unfold(strict, NOBODY, hs);
      n < |f.sys.nodes| && (f.members[n].state.scheduler.value == f.sys.nodes[n].master <==> !Pending(f, n))
  {
    FlagAgreesIff(strict, hs, n);
    UnfoldKeeps(strict, NOBODY, hs);
    var f := Unfold(strict, NOBODY, hs);
    var outcomes := f.members[n].outcomes;
    assert MemberOk(f.sys.nodes[n], f.members[n]);
    if outcomes != [] {
      assert outcomes[|outcomes| - 1] in outcomes;
    }
  }

  // ---------- the election underneath ----------

  /** The election steps among the happenings. */
  function Elections(strict: bool, f: Federation, hs: seq<Happening>): seq<Step>
    decreases |hs|
  {
    if hs == [] then []
    else
      var rest := Elections(strict, Happen(strict, f, hs[0]), hs[1..]);
      if !Possible(f, hs[0]) then rest
      else
        match hs[0]
        case Start(id, _) => [Join(id)] + rest
        case Elect(step) => [step] + rest
        case _ => rest
  }

  /** What the agents do never disturbs the election: every run of theirs is one of its runs. */
  lemma {:induction false} RunsElection(strict: bool, f: Federation, hs: seq<Happening>)
    ensures Unfold(strict, f, hs).sys == RunSteps(strict, f.sys, Elections(strict, f, hs))
    decreases |hs|
  {
    if hs != [] {
      var g := Happen(strict, f, hs[0]);
      RunsElection(strict, g, hs[1..]);
      if Possible(f, hs[0]) && (hs[0].Start? || hs[0].Elect?) {
        var step := if hs[0].Start? then Join(hs[0].id) else hs[0].step;
        assert ([step] + Elections(strict, g, hs[1..]))[1..] == Elections(strict, g, hs[1..]);
      }
    }
  }

  /**
   A node whose lease is gone, if refreshing a dead lease raises: by its due attempt it is no longer master and has
   invoked its lose callback; and from the moment that callback has completed, until the node's next attempt is
   over, its scheduler does not act.
   */
  lemma StaleSchedulerStops(f: Federation, hs: seq<Happening>, n: nat)
    requires FedInv(f) && Stale(f.sys, n)
    ensures var x := f.sys.nodes[n];
      var r := Unfold(true, f, hs);
      n < |r.sys.nodes| && n < |r.members| &&
      (r.sys.nodes[n].attempts == DueAttempt(x) ==>
        !r.sys.nodes[n].master && r.sys.nodes[n].calls == x.calls + [Lose] &&
        (Completed(r, n) ==> r.members[n].state.scheduler != Some(true)))
  {
    var x := f.sys.nodes[n];
    UnfoldKeeps(true, f, hs);
    RunsElection(true, f, hs);
    StaleNodeLeaves(f.sys, n, Elections(true, f, hs));
    var r := Unfold(true, f, hs);
    assert MemberOk(r.sys.nodes[n], r.members[n]) && NodeInSys(r.sys, n);
    if r.sys.nodes[n].attempts == DueAttempt(x) && Completed(r, n) {
      LoseSilences(r.sys.nodes[n], r.members[n]);
    }
  }

  lemma LoseSilences(x: Node, m: Member)
    requires NodeOk(x) && MemberOk(x, m) && m.outcomes != [] && |m.outcomes| == |x.calls| &&
        x.calls[|x.calls| - 1].Lose?
    requires var last := m.outcomes[|m.outcomes| - 1]; last.Took? || last.Missed?
    ensures m.state.scheduler != Some(true)
  {
    assert |x.calls| % 2 == 0 by {
      assert x.calls[|x.calls| - 1] == if (|x.calls| - 1) % 2 == 0 then Become else Lose;
    }
    LastTookZero(m.outcomes);
  }

  /** The last invoked callback has completed: its write went through, and it set the flag if there was one to set. */
  predicate Completed(f: Federation, n: nat) {
    n < |f.members| && n < |f.sys.nodes| && !Pending(f, n) && f.members[n].outcomes != [] &&
    var last := f.members[n].outcomes[|f.members[n].outcomes| - 1];
    last.Took? || last.Missed?
  }

  // ---------- where flag and role differ ----------

  lemma {:induction false} UnfoldConcat(strict: bool, f: Federation, a: seq<Happening>, b: seq<Happening>)
    ensures Unfold(strict, f, a + b) == Unfold(strict, Unfold(strict, f, a), b)
    decreases |a|
  {
    if a == [] {
      assert a + b == b;
    } else {
      assert (a + b)[1..] == a[1..] + b;
      UnfoldConcat(strict, Happen(strict, f, a[0]), a[1..], b);
    }
  }

  lemma UnfoldOne(strict: bool, f: Federation, h: Happening)
    ensures Unfold(strict, f, [h]) == Happen(strict, f, h)
  {
    assert [h][1..] == [];
    assert Unfold(strict, Happen(strict, f, h), []) == Happen(strict, f, h);
  }

  lemma UnfoldTwo(strict: bool, f: Federation, a: Happening, b: Happening)
    ensures Unfold(strict, f, [a, b]) == Happen(strict, Happen(strict, f, a), b)
  {
    assert [a, b] == [a] + [b];
    UnfoldConcat(strict, f, [a], [b]);
    UnfoldOne(strict, f, a);
    UnfoldOne(strict, Happen(strict, f, a), b);
  }

  /** A whole acquisition that wins, up to its record. */
  function Acquire(n: nat): seq<Happening> {
    [Elect(Begin(n)), Elect(Grant(n))] + [Elect(Cas(n)), Elect(Record(n))]
  }

  /** Node `n` is idle, with every callback over. */
  predicate Resting(f: Federation, n: nat) {
    n < |f.sys.nodes| && n < |f.members| && f.sys.nodes[n].running && f.sys.nodes[n].flight.Idle? && !Pending(f, n)
  }

  lemma AcquireBegins(strict: bool, f: Federation, n: nat)
    requires Resting(f, n) && !f.sys.nodes[n].master
    ensures Happen(strict, f, Elect(Begin(n))) == f.(sys := With(f.sys, n, f.sys.nodes[n].(flight := Asking)))
  {
  }

  lemma AcquireGrants(strict: bool, f: Federation, n: nat)
    requires n < |f.sys.nodes| && f.sys.nodes[n].flight.Asking?
    ensures Happen(strict, f, Elect(Grant(n))) ==
            f.(sys := With(NewLease(f.sys, n), n, f.sys.nodes[n].(flight := Granted(|f.sys.owners|))))
  {
  }

  lemma AcquireSwaps(strict: bool, f: Federation, n: nat, lease: nat)
    requires n < |f.sys.nodes| && f.sys.nodes[n].flight == Granted(lease) && lease in f.sys.live && f.sys.key.None?
    ensures Happen(strict, f, Elect(Cas(n))) ==
            f.(sys := With(f.sys.(key := Some(Key(f.sys.nodes[n].id, lease))), n,
              f.sys.nodes[n].(flight := Won(lease))))
  {
  }

  lemma AcquireRecords(strict: bool, f: Federation, n: nat, lease: nat)
    requires n < |f.sys.nodes| && f.sys.nodes[n].flight == Won(lease) && f.sys.nodes[n].running
    ensures var x := f.sys.nodes[n];
      Happen(strict, f, Elect(Record(n))) ==
      f.(sys := With(f.sys, n, BecomeMaster(x.(flight := Idle, attempts := x.attempts + 1),
        lease)).(wins := f.sys.wins + 1))
  {
  }

  /** With the key free, an acquisition leaves the node master, the agents as they are, and its callback pending. */
  lemma Acquires(strict: bool, f: Federation, n: nat)
    requires FedInv(f) && Resting(f, n) && !f.sys.nodes[n].master && f.sys.key.None?
    ensures var r := Unfold(strict, f, Acquire(n));
      FedInv(r) && |r.sys.nodes| == |f.sys.nodes| && r.members == f.members && r.sys.nodes[n].master &&
      r.sys.nodes[n].running && r.sys.nodes[n].flight.Idle? &&
      r.sys.nodes[n].lease == Some(|f.sys.owners|) && |f.sys.owners| in r.sys.live &&
      r.sys.nodes[n].calls == f.sys.nodes[n].calls + [Become] &&
      forall m | 0 <= m < |f.sys.nodes| && m != n :: r.sys.nodes[m] == f.sys.nodes[m]
  {
    UnfoldConcat(strict, f, [Elect(Begin(n)), Elect(Grant(n))], [Elect(Cas(n)), Elect(Record(n))]);
    UnfoldTwo(strict, f, Elect(Begin(n)), Elect(Grant(n)));
    UnfoldKeeps(strict, f, Acquire(n));
    hide Happen, Unfold, Possible, FedInv;
    AcquireBegins(strict, f, n);
    var f1 := Happen(strict, f, Elect(Begin(n)));
    AcquireGrants(strict, f1, n);
    var f2 := Happen(strict, f1, Elect(Grant(n)));
    UnfoldTwo(strict, f2, Elect(Cas(n)), Elect(Record(n)));
    AcquireSwaps(strict, f2, n, |f.sys.owners|);
    var f3 := Happen(strict, f2, Elect(Cas(n)));
    AcquireRecords(strict, f3, n, |f.sys.owners|);
  }

  /** One agent, started, with its scheduler created or not yet. */
  function Begun(created: bool): Federation {
    Federation(START.(nodes := [NewNode("a")]), [Member(AgentState(None, if created then Some(false) else None), [],
      None)])
  }

  lemma Begins(strict: bool)
    ensures Unfold(strict, NOBODY, [Start("a", None)]) == Begun(false)
    ensures Unfold(strict, NOBODY, [Start("a", None), CreateScheduler(0)]) == Begun(true)
    ensures FedInv(Begun(false)) && FedInv(Begun(true))
  {
    UnfoldOne(strict, NOBODY, Start("a", None));
    UnfoldTwo(strict, NOBODY, Start("a", None), CreateScheduler(0));
    UnfoldKeeps(strict, NOBODY, [Start("a", None)]);
    UnfoldKeeps(strict, NOBODY, [Start("a", None), CreateScheduler(0)]);
  }

  predicate Disagrees(f: Federation, n: nat) {
    n < |f.members| && n < |f.sys.nodes| && f.members[n].state.scheduler.Some? &&
    f.members[n].state.scheduler.value != f.sys.nodes[n].master
  }

  /** A pending callback: the role has changed, the flag has not, with the scheduler first and nothing failing. */
  lemma PendingDisagrees(strict: bool)
    ensures Disagrees(Unfold(strict, NOBODY, [Start("a", None), CreateScheduler(0)] + Acquire(0)), 0)
  {
    Begins(strict);
    UnfoldConcat(strict, NOBODY, [Start("a", None), CreateScheduler(0)], Acquire(0));
    Acquires(strict, Begun(true), 0);
  }

  /**
   The agent's own start-up order: a node that wins before its scheduler exists is master without an acting scheduler.
   */
  lemma StartupDisagrees(strict: bool)
    ensures Disagrees(
      Unfold(strict, NOBODY, [Start("a", None)] + Acquire(0) + [Complete(0, false), CreateScheduler(0)]), 0)
  {
    Begins(strict);
    UnfoldConcat(strict, NOBODY, [Start("a", None)], Acquire(0));
    Acquires(strict, Begun(false), 0);
    var won := Unfold(strict, Begun(false), Acquire(0));
    UnfoldConcat(strict, NOBODY, [Start("a", None)] + Acquire(0), [Complete(0, false), CreateScheduler(0)]);
    hide Unfold, NOBODY, Acquire, FedInv;
    MissesBecome(strict, won, 0);
  }

  lemma MissesBecome(strict: bool, f: Federation, n: nat)
    requires Pending(f, n) && f.members[n].state.scheduler.None? && f.sys.nodes[n].master
    ensures Disagrees(Unfold(strict, f, [Complete(n, false), CreateScheduler(n)]), n)
  {
    UnfoldTwo(strict, f, Complete(n, false), CreateScheduler(n));
    SettlesOne(strict, f, n, false);
  }

  /** A master whose scheduler acts. */
  predicate Acting(f: Federation, n: nat) {
    Resting(f, n) && f.sys.nodes[n].master && f.members[n].state.scheduler == Some(true)
  }

  lemma Refuses(strict: bool, f: Federation, n: nat)
    requires FedInv(f) && Acting(f, n)
    ensures var r := Happen(strict, Happen(strict, f, Elect(Refresh(n, false))), Elect(Record(n)));
      r.members == f.members && n < |r.sys.nodes| && !r.sys.nodes[n].master &&
      r.sys.nodes[n].calls == f.sys.nodes[n].calls + [Lose]
  {
    assert NodeInSys(f.sys, n);
    var x := f.sys.nodes[n];
    var f1 := Happen(strict, f, Elect(Refresh(n, false)));
    assert f1 == f.(sys := With(f.sys, n, x.(flight := Refreshed(false))));
  }

  /** A failing write on losing: the former master's scheduler goes on acting. */
  lemma FailedWriteDisagrees(strict: bool, f: Federation, n: nat, hs: seq<Happening>)
    requires f == Unfold(strict, NOBODY, hs) && Acting(f, n)
    ensures Disagrees(
      Unfold(strict, NOBODY, hs + ([Elect(Refresh(n, false)), Elect(Record(n))] + [Complete(n, true)])), n)
  {
    var a := [Elect(Refresh(n, false)), Elect(Record(n))];
    UnfoldKeeps(strict, NOBODY, hs);
    UnfoldConcat(strict, NOBODY, hs, a + [Complete(n, true)]);
    UnfoldConcat(strict, f, a, [Complete(n, true)]);
    UnfoldTwo(strict, f, Elect(Refresh(n, false)), Elect(Record(n)));
    Refuses(strict, f, n);
    UnfoldOne(strict, Unfold(strict, f, a), Complete(n, true));
    SettlesOne(strict, Unfold(strict, f, a), n, true);
  }

  /** A pending callback completes. */
  lemma SettlesOne(strict: bool, f: Federation, n: nat, dbRaises: bool)
    requires Pending(f, n)
    ensures Happen(strict, f, Complete(n, dbRaises)) ==
            f.(members := f.members[n := Settle(f.members[n], f.sys.nodes[n].calls[|f.members[n].outcomes|], dbRaises)])
  {
  }

  // ---------- how many schedulers act ----------

  /** The scheduler of this agent acts. */
  predicate Acts(f: Federation, n: nat) {
    n < |f.members| && n < |f.sys.nodes| && f.members[n].state.scheduler == Some(true)
  }

  /**
   If the node is master its lease is alive, and its scheduler has heard of all its callbacks, or of all but pairs of
   them.
   */
  predicate UpToDate(f: Federation, n: nat)
    requires n < |f.members| && n < |f.sys.nodes|
  {
    !Stale(f.sys, n) && Unheard(f, n) % 2 == 0
  }

  /** An agent that is up to date acts exactly if its node is master on a live lease. */
  lemma UpToDateActsIff(strict: bool, hs: seq<Happening>, n: nat)
    requires var f := Unfold(strict, NOBODY, hs); n < |f.members| && f.members[n].state.scheduler.Some?
    ensures var f := Unfold(strict, NOBODY, hs);
      n < |f.sys.nodes| && (UpToDate(f, n) ==> (Acts(f, n) <==> MasterWithLiveLease(f.sys, n)))
  {
    FlagAgreesIff(strict, hs, n);
    UnfoldKeeps(strict, NOBODY, hs);
    assert NodeInSys(Unfold(strict, NOBODY, hs).sys, n);
  }

  /**
   Among agents that are up to date at most one scheduler acts, in every reachable state: of any two that act, one has
   a node that is master on a dead lease, or has not heard of an odd number of callbacks.
   */
  lemma AtMostOneActs(strict: bool, hs: seq<Happening>, n: nat, m: nat)
    requires var f := Unfold(strict, NOBODY, hs); n != m && Acts(f, n) && Acts(f, m)
    ensures var f := Unfold(strict, NOBODY, hs); !UpToDate(f, n) || !UpToDate(f, m)
  {
    var f := Unfold(strict, NOBODY, hs);
    RunsElection(strict, NOBODY, hs);
    UpToDateActsIff(strict, hs, n);
    UpToDateActsIff(strict, hs, m);
    hide Unfold, Elections;
    if UpToDate(f, n) && UpToDate(f, m) {
      AtMostOneMaster(strict, Elections(strict, NOBODY, hs), n, m);
    }
  }

  lemma BecomesActing(strict: bool, f: Federation, n: nat)
    requires Pending(f, n) && f.sys.nodes[n].master && f.sys.nodes[n].running && f.sys.nodes[n].flight.Idle?
    requires |f.sys.nodes[n].calls| == |f.members[n].outcomes| + 1 &&
        f.sys.nodes[n].calls[|f.members[n].outcomes|].Become?
    requires f.members[n].state.scheduler.Some?
    ensures var r := Unfold(strict, f, [Complete(n, false)]);
      Acting(r, n) && r.sys == f.sys && Unheard(r, n) == 0 && |r.members| == |f.members| &&
      forall m | 0 <= m < |f.members| && m != n :: r.members[m] == f.members[m]
  {
    UnfoldOne(strict, f, Complete(n, false));
    SettlesOne(strict, f, n, false);
  }

  /** The master's lease, if the key is held, expires. */
  function FreeKey(f: Federation): seq<Happening> {
    if f.sys.key.Some? then [Elect(Expire(f.sys.key.value.lease))] else []
  }

  lemma FreesKey(strict: bool, f: Federation)
    requires FedInv(f)
    ensures var r := Unfold(strict, f, FreeKey(f));
      FedInv(r) && r.sys.key.None? && r.members == f.members && r.sys.nodes == f.sys.nodes
  {
    UnfoldKeeps(strict, f, FreeKey(f));
    if f.sys.key.Some? {
      UnfoldOne(strict, f, FreeKey(f)[0]);
    }
  }

  /** With the key free, another agent comes to act beside one that does. */
  lemma JoinsActing(strict: bool, f: Federation, n: nat, m: nat)
    requires FedInv(f) && n != m && Acts(f, n) && f.sys.key.None?
    requires Resting(f, m) && !f.sys.nodes[m].master && f.members[m].state.scheduler.Some?
    ensures var r := Unfold(strict, Unfold(strict, f, Acquire(m)), [Complete(m, false)]);
      Acts(r, n) && Acts(r, m) && UpToDate(r, m)
  {
    assert MemberOk(f.sys.nodes[m], f.members[m]);
    Acquires(strict, f, m);
    hide Unfold, FedInv, Acquire;
    BecomesActing(strict, Unfold(strict, f, Acquire(m)), m);
  }

  /** What has to happen for the agent of node `m` to act. */
  function Overtake(f: Federation, m: nat): seq<Happening> {
    FreeKey(f) + (Acquire(m) + [Complete(m, false)])
  }

  /**
   Conversely, from every reachable state in which a scheduler acts, the expiry of one lease lets any other resting
   agent come to act beside it with no call failing anywhere; the agent that acted before is then the one out of date.
   */
  lemma TwoSchedulersAct(strict: bool, hs: seq<Happening>, n: nat, m: nat)
    requires var f := Unfold(strict, NOBODY, hs);
      n != m && Acts(f, n) && Resting(f, m) && !f.sys.nodes[m].master && f.members[m].state.scheduler.Some?
    ensures var r := Unfold(strict, NOBODY, hs + Overtake(Unfold(strict, NOBODY, hs), m));
      Acts(r, n) && Acts(r, m) && UpToDate(r, m) && !UpToDate(r, n)
  {
    var f := Unfold(strict, NOBODY, hs);
    UnfoldKeeps(strict, NOBODY, hs);
    FreesKey(strict, f);
    var f1 := Unfold(strict, f, FreeKey(f));
    UnfoldConcat(strict, NOBODY, hs, Overtake(f, m));
    UnfoldConcat(strict, f, FreeKey(f), Acquire(m) + [Complete(m, false)]);
    UnfoldConcat(strict, f1, Acquire(m), [Complete(m, false)]);
    hide Unfold, Acquire, FreeKey, NOBODY;
    JoinsActing(strict, f1, n, m);
    AtMostOneActs(strict, hs + Overtake(f, m), n, m);
  }

  // ---------- and that this happens ----------

  /** The first agent starts, wins and acts. */
  function FirstActs(): seq<Happening> {
    [Start("a", None), CreateScheduler(0)] + Acquire(0) + [Complete(0, false)]
  }

  lemma GetsToAct(strict: bool)
    ensures var f := Unfold(strict, NOBODY, FirstActs());
      Acting(f, 0) && |f.members| == |f.sys.nodes| == 1
  {
    Begins(strict);
    UnfoldConcat(strict, NOBODY, [Start("a", None), CreateScheduler(0)], Acquire(0));
    Acquires(strict, Begun(true), 0);
    UnfoldConcat(strict, NOBODY, [Start("a", None), CreateScheduler(0)] + Acquire(0), [Complete(0, false)]);
    hide Unfold, Acquire, NOBODY, Acting, FedInv;
    BecomesActing(strict, Unfold(strict, Begun(true), Acquire(0)), 0);
  }

  /** A second agent starts. */
  function SecondRests(): seq<Happening> {
    FirstActs() + [Start("b", None), CreateScheduler(1)]
  }

  lemma SecondStarts(strict: bool, f: Federation)
    requires |f.members| == |f.sys.nodes| == 1
    ensures var r := Unfold(strict, f, [Start("b", None), CreateScheduler(1)]);
      r.sys == f.sys.(nodes := f.sys.nodes + [NewNode("b")]) &&
      r.members == f.members + [Member(AgentState(None, Some(false)), [], None)]
  {
    UnfoldTwo(strict, f, Start("b", None), CreateScheduler(1));
  }

  /** A run from nothing to two acting schedulers: two agents start, nothing fails, one lease expires. */
  lemma TwoSchedulersReached(strict: bool)
    ensures var r := Unfold(strict, NOBODY, SecondRests() + Overtake(Unfold(strict, NOBODY, SecondRests()), 1));
      Acts(r, 0) && Acts(r, 1)
  {
    GetsToAct(strict);
    UnfoldConcat(strict, NOBODY, FirstActs(), [Start("b", None), CreateScheduler(1)]);
    SecondStarts(strict, Unfold(strict, NOBODY, FirstActs()));
    hide Unfold, FirstActs, NOBODY, Overtake;
    TwoSchedulersAct(strict, SecondRests(), 0, 1);
  }

  /** A run from nothing in which a failing write leaves a former master's scheduler acting. */
  lemma FailedWriteReached(strict: bool)
    ensures Disagrees(
      Unfold(strict, NOBODY, FirstActs() + ([Elect(Refresh(0, false)), Elect(Record(0))] + [Complete(0, true)])), 0)
  {
    GetsToAct(strict);
    hide Unfold, FirstActs;
    FailedWriteDisagrees(strict, Unfold(strict, NOBODY, FirstActs()), 0, FirstActs());
  }
}
