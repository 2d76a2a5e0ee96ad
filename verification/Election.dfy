/**
 Leader election over one etcd key, as a state machine: any number of nodes, each with one loop whose
 calls to etcd run in another thread, so that an answer and its local record are separate steps.
 */
module Election {
  import opened Wrappers

  /** How far the attempt in progress has got: what etcd has answered and the node has not yet recorded. */
  datatype Flight =
    | Idle
    | Asking                    // the thread of an acquisition runs, its lease not yet created
    | Granted(lease: nat)       // lease created, the compare-and-swap not yet made
    | Won(lease: nat)
    | Lost                      // the swap found the key present; the master is still to be read
    | Seen(holder: string)      // the master read after losing, "" if none
    | Raised                    // creating the lease, the compare-and-swap or reading the master raised
    | Refreshed(ok: bool)

  datatype Callback = Become | Lose

  /** One election object; `calls` lists its callback invocations, `attempts` counts completed loop attempts. */
  datatype Node = Node(
    id: string, running: bool, master: bool, masterId: string, term: nat, lease: Option<nat>,
    flight: Flight, calls: seq<Callback>, attempts: nat)

  datatype Key = Key(holder: string, lease: nat)

  /**
   The whole system. `owners[l]` is the node that lease `l` was created for. The thread of a cancelled attempt goes on:
   `loose` are the nodes with such a thread before its lease, `strays` the leases of such threads before their swap.
   */
  datatype Sys = Sys(
    nodes: seq<Node>, key: Option<Key>, live: set<nat>, owners: seq<nat>, loose: set<nat>, strays: set<nat>, wins: nat)

  datatype Step =
    | Join(id: string)                  // a new election object starts, perhaps after a restart
    | Begin(n: nat)                     // an acquisition is handed to a thread
    | Grant(n: nat)                     // the lease is created
    | GrantFails(n: nat, applied: bool) // creating it raises, perhaps after taking effect
    | StrayGrant(n: nat)                // the thread of a stopped attempt still creates its lease
    | Cas(n: nat)                       // the compare-and-swap is made and answered
    | CasFails(n: nat, applied: bool)   // it raises, perhaps after taking effect
    | StrayCas(lease: nat)              // the thread of a stopped attempt still makes its compare-and-swap
    | Refresh(n: nat, ok: bool)         // the lease refresh is answered
    | Look(n: nat, ok: bool)            // having lost, the master is read
    | Record(n: nat)                    // the loop continues with the answer
    | Expire(lease: nat)
    | ForceElect(n: nat, ok: bool)
    | Stop(n: nat, ok: bool)            // the loop is cancelled and the lease revoked, unless that raises
    | Crash(n: nat)

  // ---------- one node ----------

  function NewNode(id: string): Node {
    Node(id, true, false, "", 0, None, Idle, [], 0)
  }

  /** `_on_become_master`, after `_lease` was set. */
  function BecomeMaster(x: Node, lease: nat): Node {
    x.(lease := Some(lease), master := true, masterId := x.id, term := x.term + 1,
       calls := if x.master then x.calls else x.calls + [Become])
  }

  /** `_on_lose_master`. */
  function LoseMaster(x: Node): Node {
    x.(master := false, lease := None, calls := x.calls + [Lose])
  }

  /** What the loop does with the answer to its attempt. */
  function Complete(x: Node): Node {
    var y := x.(flight := Idle, attempts := x.attempts + 1);
    match x.flight
    case Won(lease) => BecomeMaster(y, lease)
    case Seen(holder) => if holder != "" && y.masterId != holder then y.(masterId := holder) else y
    case Refreshed(ok) => if ok then y else LoseMaster(y)
    case _ => y
  }

  /** An attempt refreshes if the node is master and has a lease, otherwise it tries to acquire. */
  predicate Refreshes(x: Node) {
    x.master && x.lease.Some?
  }

  // ---------- etcd ----------

  /** A lease ends; a key attached to it goes with it. */
  function Drop(s: Sys, lease: nat): Sys {
    s.(live := s.live - {lease}, key := if s.key.Some? && s.key.value.lease == lease then None else s.key)
  }

  /** Set the key if it does not exist; only then a dead lease makes the call fail. */
  function Swap(s: Sys, holder: string, lease: nat): Sys {
    if s.key.None? && lease in s.live then s.(key := Some(Key(holder, lease))) else s
  }

  function SwapAnswer(s: Sys, lease: nat): Flight {
    if s.key.Some? then Lost else if lease in s.live then Won(lease) else Raised
  }

  function With(s: Sys, n: nat, x: Node): Sys
    requires n < |s.nodes|
  {
    s.(nodes := s.nodes[n := x])
  }

  predicate Answered(flight: Flight) {
    flight.Won? || flight.Seen? || flight.Raised? || flight.Refreshed?
  }

  predicate Enabled(strict: bool, s: Sys, step: Step) {
    match step
    case Join(_) => true
    case Begin(n) => n < |s.nodes| && s.nodes[n].running && s.nodes[n].flight.Idle? && !Refreshes(s.nodes[n])
    case Grant(n) => n < |s.nodes| && s.nodes[n].flight.Asking?
    case GrantFails(n, _) => n < |s.nodes| && s.nodes[n].flight.Asking?
    case StrayGrant(n) => n < |s.nodes| && n in s.loose
    case Cas(n) => n < |s.nodes| && s.nodes[n].flight.Granted?
    case CasFails(n, applied) => n < |s.nodes| && s.nodes[n].flight.Granted?
    case StrayCas(lease) => lease in s.strays && lease < |s.owners| && s.owners[lease] < |s.nodes|
    case Refresh(n, ok) =>
      n < |s.nodes| && s.nodes[n].running && s.nodes[n].flight.Idle? && Refreshes(s.nodes[n]) &&
      (ok && strict ==> s.nodes[n].lease.value in s.live)
    case Look(n, _) => n < |s.nodes| && s.nodes[n].running && s.nodes[n].flight.Lost?
    case Record(n) => n < |s.nodes| && s.nodes[n].running && Answered(s.nodes[n].flight)
    case Expire(lease) => lease in s.live
    case ForceElect(n, _) => n < |s.nodes|
    case Stop(n, _) => n < |s.nodes|
    case Crash(n) => n < |s.nodes|
  }

  /** The loop is gone: an attempt still in its thread goes on as a stray, an unrecorded answer is never recorded. */
  function Cancel(s: Sys, n: nat): Sys
    requires n < |s.nodes|
  {
    var x := s.nodes[n];
    var s1 := With(s, n, x.(running := false, flight := Idle));
    match x.flight
    case Asking => s1.(loose := s1.loose + {n})
    case Granted(lease) => s1.(strays := s1.strays + {lease})
    case _ => s1
  }

  /** A new lease for node `n`. */
  function NewLease(s: Sys, n: nat): Sys {
    s.(live := s.live + {|s.owners|}, owners := s.owners + [n])
  }

  /** `_revoke_lease`: nothing without a lease, and a failing call is ignored. */
  function RevokeOwn(s: Sys, n: nat, ok: bool): Sys
    requires n < |s.nodes|
  {
    if ok && s.nodes[n].lease.Some? then Drop(s, s.nodes[n].lease.value) else s
  }

  function Apply(s: Sys, step: Step): Sys
    requires Enabled(false, s, step)
  {
    match step
    case Join(id) => s.(nodes := s.nodes + [NewNode(id)])
    case Begin(n) => With(s, n, s.nodes[n].(flight := Asking))
    case Grant(n) => With(NewLease(s, n), n, s.nodes[n].(flight := Granted(|s.owners|)))
    case GrantFails(n, applied) => With(if applied then NewLease(s, n) else s, n, s.nodes[n].(flight := Raised))
    case StrayGrant(n) => NewLease(s, n).(loose := s.loose - {n}, strays := s.strays + {|s.owners|})
    case Cas(n) =>
      var x := s.nodes[n];
      With(Swap(s, x.id, x.flight.lease), n, x.(flight := SwapAnswer(s, x.flight.lease)))
    case CasFails(n, applied) =>
      var x := s.nodes[n];
      With(if applied then Swap(s, x.id, x.flight.lease) else s, n, x.(flight := Raised))
    case StrayCas(lease) =>
      Swap(s.(strays := s.strays - {lease}), s.nodes[s.owners[lease]].id, lease)
    case Refresh(n, ok) => With(s, n, s.nodes[n].(flight := Refreshed(ok)))
    case Look(n, ok) =>
      var seen := if s.key.Some? then s.key.value.holder else "";
      With(s, n, s.nodes[n].(flight := if ok then Seen(seen) else Raised))
    case Record(n) =>
      var x := s.nodes[n];
      With(s, n, Complete(x)).(wins := s.wins + if x.flight.Won? then 1 else 0)
    case Expire(lease) => Drop(s, lease)
    case ForceElect(n, ok) => if s.nodes[n].masterId == s.nodes[n].id then RevokeOwn(s, n, ok) else s
    case Stop(n, ok) => RevokeOwn(Cancel(s, n), n, ok)
    case Crash(n) => Cancel(s, n)
  }

  /** One step of the system; a step that is not enabled does nothing. `strict`: refreshing a dead lease raises. */
  function Next(strict: bool, s: Sys, step: Step): Sys {
    if Enabled(strict, s, step) then Apply(s, step) else s
  }

  function RunSteps(strict: bool, s: Sys, steps: seq<Step>): Sys
    decreases |steps|
  {
    if steps == [] then s else RunSteps(strict, Next(strict, s, steps[0]), steps[1..])
  }

  const START := Sys([], None, {}, [], {}, {}, 0)

  // ---------- the invariant ----------

  predicate Alternates(calls: seq<Callback>) {
    forall i | 0 <= i < |calls| :: calls[i] == if i % 2 == 0 then Become else Lose
  }

  /** What is true of one node by itself. */
  predicate NodeOk(x: Node) {
    (x.master <==> x.lease.Some?) && Alternates(x.calls) && (x.master <==> |x.calls| % 2 == 1) &&
    (x.flight.Refreshed? ==> x.master) && (!x.flight.Idle? && !x.flight.Refreshed? ==> !x.master) &&
    (x.master ==> x.masterId == x.id)
  }

  predicate Owns(s: Sys, n: nat, lease: nat) {
    lease < |s.owners| && s.owners[lease] == n
  }

  /** A lease that won, recorded or not: while it lives, the key names this node and this lease. */
  predicate Holds(s: Sys, n: nat, lease: nat)
    requires n < |s.nodes|
  {
    Owns(s, n, lease) && (lease in s.live ==> s.key == Some(Key(s.nodes[n].id, lease)))
  }

  predicate NodeInSys(s: Sys, n: nat)
    requires n < |s.nodes|
  {
    var x := s.nodes[n];
    NodeOk(x) &&
    (x.lease.Some? ==> Holds(s, n, x.lease.value)) &&
    (x.flight.Won? ==> Holds(s, n, x.flight.lease)) &&
    (x.flight.Granted? ==> Owns(s, n, x.flight.lease))
  }

  function TermSum(nodes: seq<Node>): nat {
    if nodes == [] then 0 else TermSum(nodes[..|nodes| - 1]) + nodes[|nodes| - 1].term
  }

  predicate Inv(s: Sys) {
    (forall n | 0 <= n < |s.nodes| :: NodeInSys(s, n)) &&
    (forall lease | lease in s.live :: lease < |s.owners|) &&
    (forall lease | 0 <= lease < |s.owners| :: s.owners[lease] < |s.nodes|) &&
    (s.key.Some? ==> s.key.value.lease in s.live) &&
    TermSum(s.nodes) == s.wins
  }

  lemma {:induction false} TermSumUpdate(nodes: seq<Node>, n: nat, x: Node)
    requires n < |nodes|
    ensures TermSum(nodes[n := x]) == TermSum(nodes) - nodes[n].term + x.term
    decreases |nodes|
  {
    var m := |nodes| - 1;
    if n == m {
      assert nodes[n := x][..m] == nodes[..m];
    } else {
      assert nodes[n := x][..m] == nodes[..m][n := x];
      TermSumUpdate(nodes[..m], n, x);
    }
  }

  lemma CompleteOk(x: Node)
    requires NodeOk(x)
    ensures NodeOk(Complete(x))
  {
  }

  /** Changing one node and nothing else. */
  lemma UpdateKeeps(s: Sys, n: nat, x: Node, wins: nat)
    requires Inv(s) && n < |s.nodes| && x.id == s.nodes[n].id
    requires NodeInSys(With(s, n, x), n)
    requires wins == s.wins - s.nodes[n].term + x.term
    ensures Inv(With(s, n, x).(wins := wins))
  {
    var s1 := With(s, n, x).(wins := wins);
    TermSumUpdate(s.nodes, n, x);
    forall m | 0 <= m < |s1.nodes|
      ensures NodeInSys(s1, m)
    {
      assert NodeInSys(s, m);
    }
  }

  /** Ending a lease. */
  lemma DropKeeps(s: Sys, lease: nat)
    requires Inv(s)
    ensures Inv(Drop(s, lease))
  {
    var s1 := Drop(s, lease);
    forall m | 0 <= m < |s1.nodes|
      ensures NodeInSys(s1, m)
    {
      assert NodeInSys(s, m);
    }
  }

  /** A compare-and-swap on an absent key, by the owner of a live lease. */
  lemma SwapKeeps(s: Sys, n: nat, lease: nat)
    requires Inv(s) && n < |s.nodes| && Owns(s, n, lease)
    ensures Inv(Swap(s, s.nodes[n].id, lease))
    ensures lease in s.live && s.key.None? ==> Holds(Swap(s, s.nodes[n].id, lease), n, lease)
  {
    var s1 := Swap(s, s.nodes[n].id, lease);
    forall m | 0 <= m < |s1.nodes|
      ensures NodeInSys(s1, m)
    {
      assert NodeInSys(s, m);
    }
  }

  lemma NewLeaseKeeps(s: Sys, n: nat)
    requires Inv(s) && n < |s.nodes|
    ensures Inv(NewLease(s, n)) && Owns(NewLease(s, n), n, |s.owners|)
  {
    var s1 := NewLease(s, n);
    forall m | 0 <= m < |s1.nodes|
      ensures NodeInSys(s1, m)
    {
      assert NodeInSys(s, m);
    }
  }

  lemma GrantKeeps(s: Sys, n: nat)
    requires Inv(s) && Enabled(false, s, Grant(n))
    ensures Inv(Apply(s, Grant(n)))
  {
    NewLeaseKeeps(s, n);
    assert NodeInSys(s, n);
    UpdateKeeps(NewLease(s, n), n, s.nodes[n].(flight := Granted(|s.owners|)), s.wins);
  }

  lemma GrantFailsKeeps(s: Sys, n: nat, applied: bool)
    requires Inv(s) && Enabled(false, s, GrantFails(n, applied))
    ensures Inv(Apply(s, GrantFails(n, applied)))
  {
    var s1 := if applied then NewLease(s, n) else s;
    NewLeaseKeeps(s, n);
    assert NodeInSys(s1, n);
    UpdateKeeps(s1, n, s.nodes[n].(flight := Raised), s.wins);
  }

  /** What threads of stopped attempts remain does not matter to the nodes. */
  lemma ThreadsKeep(s: Sys, loose: set<nat>, strays: set<nat>)
    requires Inv(s)
    ensures Inv(s.(loose := loose, strays := strays))
  {
    var s1 := s.(loose := loose, strays := strays);
    forall m | 0 <= m < |s1.nodes|
      ensures NodeInSys(s1, m)
    {
      assert NodeInSys(s, m);
    }
  }

  lemma JoinKeeps(s: Sys, id: string)
    requires Inv(s)
    ensures Inv(Apply(s, Join(id)))
  {
    var s1 := Apply(s, Join(id));
    assert s1.nodes[..|s1.nodes| - 1] == s.nodes;
    forall m | 0 <= m < |s1.nodes|
      ensures NodeInSys(s1, m)
    {
      if m < |s.nodes| {
        assert NodeInSys(s, m);
      }
    }
  }

  lemma CancelKeeps(s: Sys, n: nat)
    requires Inv(s) && n < |s.nodes|
    ensures Inv(Cancel(s, n))
  {
    assert NodeInSys(s, n);
    var x := s.nodes[n].(running := false, flight := Idle);
    UpdateKeeps(s, n, x, s.wins);
    ThreadsKeep(With(s, n, x), Cancel(s, n).loose, Cancel(s, n).strays);
  }

  lemma CasKeeps(s: Sys, n: nat)
    requires Inv(s) && Enabled(false, s, Cas(n))
    ensures Inv(Apply(s, Cas(n)))
  {
    var x := s.nodes[n];
    var lease := x.flight.lease;
    assert NodeInSys(s, n);
    var s1 := Swap(s, x.id, lease);
    SwapKeeps(s, n, lease);
    assert NodeInSys(s1, n);
    UpdateKeeps(s1, n, x.(flight := SwapAnswer(s, lease)), s1.wins);
  }

  lemma CasFailsKeeps(s: Sys, n: nat, applied: bool)
    requires Inv(s) && Enabled(false, s, CasFails(n, applied))
    ensures Inv(Apply(s, CasFails(n, applied)))
  {
    assert NodeInSys(s, n);
    var s1 := if applied then Swap(s, s.nodes[n].id, s.nodes[n].flight.lease) else s;
    SwapKeeps(s, n, s.nodes[n].flight.lease);
    assert NodeInSys(s1, n);
    UpdateKeeps(s1, n, s.nodes[n].(flight := Raised), s1.wins);
  }

  lemma RecordKeeps(s: Sys, n: nat)
    requires Inv(s) && Enabled(false, s, Record(n))
    ensures Inv(Apply(s, Record(n)))
  {
    var x := s.nodes[n];
    assert NodeInSys(s, n);
    CompleteOk(x);
    UpdateKeeps(s, n, Complete(x), s.wins + if x.flight.Won? then 1 else 0);
  }

  lemma StopKeeps(s: Sys, n: nat, ok: bool)
    requires Inv(s) && n < |s.nodes|
    ensures Inv(Apply(s, Stop(n, ok)))
  {
    CancelKeeps(s, n);
    var s1 := Cancel(s, n);
    if ok && s1.nodes[n].lease.Some? {
      DropKeeps(s1, s1.nodes[n].lease.value);
    }
  }

  lemma StrayGrantKeeps(s: Sys, n: nat)
    requires Inv(s) && Enabled(false, s, StrayGrant(n))
    ensures Inv(Apply(s, StrayGrant(n)))
  {
    NewLeaseKeeps(s, n);
    ThreadsKeep(NewLease(s, n), s.loose - {n}, s.strays + {|s.owners|});
  }

  lemma NextKeeps(strict: bool, s: Sys, step: Step)
    requires Inv(s)
    ensures Inv(Next(strict, s, step))
  {
    if Enabled(strict, s, step) {
      match step
      case Join(id) => JoinKeeps(s, id);
      case Begin(n) =>
        assert NodeInSys(s, n);
        UpdateKeeps(s, n, s.nodes[n].(flight := Asking), s.wins);
      case Grant(n) => GrantKeeps(s, n);
      case GrantFails(n, applied) => GrantFailsKeeps(s, n, applied);
      case StrayGrant(n) => StrayGrantKeeps(s, n);
      case Cas(n) => CasKeeps(s, n);
      case CasFails(n, applied) =>
        CasFailsKeeps(s, n, applied);
      case StrayCas(lease) =>
        ThreadsKeep(s, s.loose, s.strays - {lease});
        SwapKeeps(s.(strays := s.strays - {lease}), s.owners[lease], lease);
      case Refresh(n, ok) =>
        assert NodeInSys(s, n);
        UpdateKeeps(s, n, s.nodes[n].(flight := Refreshed(ok)), s.wins);
      case Look(n, ok) =>
        assert NodeInSys(s, n);
        UpdateKeeps(s, n, Apply(s, Look(n, ok)).nodes[n], s.wins);
      case Record(n) => RecordKeeps(s, n);
      case Expire(lease) => DropKeeps(s, lease);
      case ForceElect(n, ok) =>
        if ok && s.nodes[n].lease.Some? {
          DropKeeps(s, s.nodes[n].lease.value);
        }
      case Stop(n, ok) => StopKeeps(s, n, ok);
      case Crash(n) => CancelKeeps(s, n);
    }
  }

  lemma {:induction false} RunKeeps(strict: bool, s: Sys, steps: seq<Step>)
    requires Inv(s)
    ensures Inv(RunSteps(strict, s, steps))
    decreases |steps|
  {
    if steps != [] {
      NextKeeps(strict, s, steps[0]);
      RunKeeps(strict, Next(strict, s, steps[0]), steps[1..]);
    }
  }

  // ---------- main results ----------

  predicate MasterWithLiveLease(s: Sys, n: nat)
    requires n < |s.nodes|
  {
    s.nodes[n].master && s.nodes[n].lease.Some? && s.nodes[n].lease.value in s.live
  }

  /**
   Election safety over every interleaving, with restarts, stopped loops and lost answers: at most one node
   is master with a lease still alive in etcd, and the master key names exactly that node and lease.
   */
  lemma AtMostOneMaster(strict: bool, steps: seq<Step>, n: nat, m: nat)
    requires var s := RunSteps(strict, START, steps); n < |s.nodes| && m < |s.nodes|
    requires var s := RunSteps(strict, START, steps); MasterWithLiveLease(s, n) && MasterWithLiveLease(s, m)
    ensures var s := RunSteps(strict, START, steps);
      n == m && s.key == Some(Key(s.nodes[n].id, s.nodes[n].lease.value))
  {
    RunKeeps(strict, START, steps);
    var s := RunSteps(strict, START, steps);
    assert NodeInSys(s, n) && NodeInSys(s, m);
  }

  /**
   At every await point of every run: a node is master exactly if it holds a lease, its callbacks alternate
   starting with the become callback, and all terms add up to the wins that were recorded.
   */
  lemma RolesAndTerms(strict: bool, steps: seq<Step>, n: nat)
    requires n < |RunSteps(strict, START, steps).nodes|
    ensures var s := RunSteps(strict, START, steps);
      var x := s.nodes[n];
      (x.master <==> x.lease.Some?) && Alternates(x.calls) && (x.master <==> |x.calls| % 2 == 1) &&
      TermSum(s.nodes) == s.wins
  {
    RunKeeps(strict, START, steps);
    assert NodeInSys(RunSteps(strict, START, steps), n);
  }

  /** Between the answer of the compare-and-swap and its record, the key names a node that is not master yet. */
  lemma WonBeforeRecorded()
    ensures var s := RunSteps(true, START, [Join("a"), Begin(0), Grant(0), Cas(0)]);
      |s.nodes| == 1 && s.nodes[0].flight == Won(0) && !s.nodes[0].master && s.key == Some(Key("a", 0)) && 0 in s.live
  {
    assert [Join("a"), Begin(0), Grant(0), Cas(0)] == [Join("a"), Begin(0)] + [Grant(0), Cas(0)];
    RunConcat(true, START, [Join("a"), Begin(0)], [Grant(0), Cas(0)]);
    RunTwo(true, START, Join("a"), Begin(0));
    var s2 := Next(true, Next(true, START, Join("a")), Begin(0));
    RunTwo(true, s2, Grant(0), Cas(0));
  }

  lemma {:induction false} RunConcat(strict: bool, s: Sys, a: seq<Step>, b: seq<Step>)
    ensures RunSteps(strict, s, a + b) == RunSteps(strict, RunSteps(strict, s, a), b)
    decreases |a|
  {
    if a == [] {
      assert a + b == b;
    } else {
      assert (a + b)[1..] == a[1..] + b;
      RunConcat(strict, Next(strict, s, a[0]), a[1..], b);
    }
  }

  lemma RunTwo(strict: bool, s: Sys, a: Step, b: Step)
    ensures RunSteps(strict, s, [a, b]) == Next(strict, Next(strict, s, a), b)
  {
    var s1 := Next(strict, s, a);
    assert [a, b][1..] == [b] && [b][1..] == [];
    assert RunSteps(strict, s1, [b]) == RunSteps(strict, Next(strict, s1, b), []);
  }

  /** Master on a lease that is gone. */
  predicate Stale(s: Sys, n: nat) {
    n < |s.nodes| && s.nodes[n].master && s.nodes[n].lease.Some? && s.nodes[n].lease.value !in s.live
  }

  /**
   The completed attempt with which a stale node has stepped down: the next one, or one later if a refresh was already
   answered.
   */
  function DueAttempt(x: Node): nat {
    x.attempts + if x.flight == Refreshed(true) then 2 else 1
  }

  /** What stays true of a stale node until and at that attempt. */
  predicate Leaving(s: Sys, n: nat, lease: nat, due: nat, calls: seq<Callback>) {
    n < |s.nodes| && lease < |s.owners| && lease !in s.live &&
    var x := s.nodes[n];
    due <= x.attempts + 2 &&
    (x.attempts < due ==> x.master && x.lease == Some(lease) && x.calls == calls) &&
    (x.attempts + 1 == due ==> x.flight != Refreshed(true)) &&
    (x.attempts + 2 == due ==> x.flight == Refreshed(true) || !x.running) &&
    (x.attempts == due ==> !x.master && x.lease.None? && x.calls == calls + [Lose])
  }

  lemma LeavingStep(s: Sys, step: Step, n: nat, lease: nat, due: nat, calls: seq<Callback>)
    requires Inv(s) && Leaving(s, n, lease, due, calls)
    ensures Leaving(Next(true, s, step), n, lease, due, calls) || Next(true, s, step).nodes[n].attempts > due
    ensures n < |Next(true, s, step).nodes| && Next(true, s, step).nodes[n].attempts >= s.nodes[n].attempts
  {
    if ActsFor(step, n) {
      LeavingActs(s, step, n, lease, due, calls);
    } else {
      OneLeavesAlone(true, s, step, n);
      DeadLease(true, s, step, lease);
    }
  }

  lemma DeadLease(strict: bool, s: Sys, step: Step, lease: nat)
    requires lease !in s.live && lease < |s.owners|
    ensures var r := Next(strict, s, step); lease !in r.live && lease < |r.owners|
  {
  }

  lemma LeavingActs(s: Sys, step: Step, n: nat, lease: nat, due: nat, calls: seq<Callback>)
    requires Inv(s) && Leaving(s, n, lease, due, calls) && ActsFor(step, n)
    ensures Leaving(Next(true, s, step), n, lease, due, calls) || Next(true, s, step).nodes[n].attempts > due
    ensures n < |Next(true, s, step).nodes| && Next(true, s, step).nodes[n].attempts >= s.nodes[n].attempts
  {
    assert NodeInSys(s, n);
    DeadLease(true, s, step, lease);
  }

  lemma AttemptsGrow(s: Sys, step: Step, n: nat)
    requires n < |s.nodes|
    ensures n < |Next(true, s, step).nodes| && Next(true, s, step).nodes[n].attempts >= s.nodes[n].attempts
  {
  }

  lemma {:induction false} LeavingRun(s: Sys, steps: seq<Step>, n: nat, lease: nat, due: nat, calls: seq<Callback>)
    requires Inv(s) && n < |s.nodes| && (Leaving(s, n, lease, due, calls) || s.nodes[n].attempts > due)
    ensures var r := RunSteps(true, s, steps);
      n < |r.nodes| && (Leaving(r, n, lease, due, calls) || r.nodes[n].attempts > due)
    decreases |steps|
  {
    if steps != [] {
      NextKeeps(true, s, steps[0]);
      AttemptsGrow(s, steps[0], n);
      if Leaving(s, n, lease, due, calls) {
        LeavingStep(s, steps[0], n, lease, due, calls);
      }
      LeavingRun(Next(true, s, steps[0]), steps[1..], n, lease, due, calls);
    }
  }

  /**
   If refreshing a dead lease raises, a node whose lease is gone, for whatever reason, is no longer master after
   its next attempt (the one after that, if a refresh had already been answered), whatever else happens meanwhile;
   until then it keeps its role, and at that point it has called its lose callback exactly once.
   */
  lemma StaleNodeLeaves(s: Sys, n: nat, steps: seq<Step>)
    requires Inv(s) && Stale(s, n)
    ensures var x := s.nodes[n];
      var r := RunSteps(true, s, steps);
      n < |r.nodes| &&
      (r.nodes[n].attempts == DueAttempt(x) ==>
        !r.nodes[n].master && r.nodes[n].lease.None? && r.nodes[n].calls == x.calls + [Lose]) &&
      (r.nodes[n].attempts < DueAttempt(x) ==> r.nodes[n].master && r.nodes[n].calls == x.calls)
  {
    var x := s.nodes[n];
    assert NodeInSys(s, n);
    LeavingRun(s, steps, n, x.lease.value, DueAttempt(x), x.calls);
  }

  /** A successful `force_elect` on a node that still had its lease makes it stale at once. */
  lemma ForcedNodeIsStale(strict: bool, s: Sys, n: nat)
    requires Inv(s) && n < |s.nodes| && s.nodes[n].master
    ensures Stale(Next(strict, s, ForceElect(n, true)), n)
  {
    assert NodeInSys(s, n);
  }

  /** Every lease but possibly this node's own is alive in `r` exactly if it was in `s`. */
  ghost predicate OthersLive(s: Sys, r: Sys, own: Option<nat>) {
    forall lease: nat | Some(lease) != own :: lease in r.live <==> lease in s.live
  }

  /**
   `force_elect` frees the master key exactly if this node holds it; it answers true in more cases than that. It ends
   no lease but the node's own, and none if the call fails or the node names another master.
   */
  lemma ForceElectFreesIff(strict: bool, s: Sys, n: nat)
    requires Inv(s) && n < |s.nodes|
    ensures var r := Next(strict, s, ForceElect(n, true));
      (s.key.Some? ==> (r.key.None? <==> MasterWithLiveLease(s, n))) && (r.key.Some? ==> r.key == s.key) &&
      OthersLive(s, r, s.nodes[n].lease) && (s.nodes[n].masterId != s.nodes[n].id ==> r == s)
    ensures Next(strict, s, ForceElect(n, false)) == s
  {
    assert NodeInSys(s, n);
  }

  /**
   Stopping a node revokes its lease: the node does not run, its lease is dead, and the master key goes exactly if the
   node was master on a live lease. No other lease ends, and its role, term and callbacks stay what they were.
   */
  lemma StopFreesIff(strict: bool, s: Sys, n: nat)
    requires Inv(s) && n < |s.nodes|
    ensures var r := Next(strict, s, Stop(n, true));
      var x, y := s.nodes[n], r.nodes[n];
      !y.running && y == x.(running := false, flight := Idle) && r.nodes == s.nodes[n := y] &&
      (x.lease.Some? ==> x.lease.value !in r.live) && OthersLive(s, r, x.lease) &&
      (s.key.Some? ==> (r.key.None? <==> MasterWithLiveLease(s, n))) && (r.key.Some? ==> r.key == s.key)
  {
    assert NodeInSys(s, n);
  }

  /** A stop whose revocation fails, and a crash, leave key and leases as they were; expiry has to end them. */
  lemma UnrevokedStays(strict: bool, s: Sys, n: nat, step: Step)
    requires n < |s.nodes| && (step == Stop(n, false) || step == Crash(n))
    ensures var r := Next(strict, s, step);
      !r.nodes[n].running && r.key == s.key && r.live == s.live && r.nodes[n].lease == s.nodes[n].lease
  {
  }

  /** Expiry ends one lease, and takes the key with it exactly if the key is attached to that lease. */
  lemma ExpiryFreesIff(strict: bool, s: Sys, lease: nat)
    requires lease in s.live
    ensures var r := Next(strict, s, Expire(lease));
      lease !in r.live && OthersLive(s, r, Some(lease)) && r.nodes == s.nodes &&
      r.key == if s.key.Some? && s.key.value.lease != lease then s.key else None
  {
  }

  /**
   The thread of a stopped attempt still makes its swap: on a free key the key then names a node that does not run and
   is not master, until that lease expires.
   */
  lemma StrayTakesKey(strict: bool, s: Sys, n: nat, ok: bool)
    requires Inv(s) && n < |s.nodes| && s.nodes[n].flight.Granted? && s.nodes[n].flight.lease in s.live && s.key.None?
    ensures var lease := s.nodes[n].flight.lease;
      var r := Next(strict, Next(strict, s, Stop(n, ok)), StrayCas(lease));
      r.key == Some(Key(s.nodes[n].id, lease)) && lease in r.live && !r.nodes[n].running && !r.nodes[n].master
  {
    assert NodeInSys(s, n);
  }

  /** The same for an attempt stopped before it had its lease. */
  lemma LooseTakesKey(strict: bool, s: Sys, n: nat, ok: bool)
    requires Inv(s) && n < |s.nodes| && s.nodes[n].flight.Asking? && s.key.None?
    ensures var lease := |s.owners|;
      var r := Next(strict, Next(strict, Next(strict, s, Stop(n, ok)), StrayGrant(n)), StrayCas(lease));
      r.key == Some(Key(s.nodes[n].id, lease)) && lease in r.live && !r.nodes[n].running && !r.nodes[n].master
  {
    assert NodeInSys(s, n);
  }

  /**
   A swap that raises after taking effect is a win nobody records: the key names the node, on a live lease the node does
   not hold. One that raises without effect, like a lease creation that does, leaves the key as it is.
   */
  lemma RaisedSwapIsUnrecorded(strict: bool, s: Sys, n: nat, applied: bool)
    requires Inv(s) && n < |s.nodes| && s.nodes[n].running && s.nodes[n].flight.Granted?
    ensures var lease := s.nodes[n].flight.lease;
      var r := Next(strict, Next(strict, s, CasFails(n, applied)), Record(n));
      r.live == s.live && !r.nodes[n].master && r.nodes[n].lease.None? && r.nodes[n].term == s.nodes[n].term &&
      r.nodes[n].attempts == s.nodes[n].attempts + 1 &&
      r.key == if applied && s.key.None? && lease in s.live then Some(Key(s.nodes[n].id, lease)) else s.key
  {
    assert NodeInSys(s, n);
  }

  /** Having lost, the node takes over the holder's name if it could be read; a failing read leaves what it named. */
  lemma LoserNamesHolder(strict: bool, s: Sys, n: nat, ok: bool)
    requires n < |s.nodes| && s.nodes[n].running && s.nodes[n].flight.Lost?
    ensures var r := Next(strict, Next(strict, s, Look(n, ok)), Record(n));
      r.key == s.key && r.live == s.live &&
      r.nodes[n] == s.nodes[n].(
        flight := Idle, attempts := s.nodes[n].attempts + 1,
        masterId := if ok && s.key.Some? && s.key.value.holder != "" then s.key.value.holder else s.nodes[n].masterId)
  {
  }

  /** Creating a lease may raise after taking effect; the lease is then alive and related to no node. */
  lemma RaisedGrantIsOrphan(strict: bool, s: Sys, n: nat, applied: bool)
    requires Inv(s) && n < |s.nodes| && s.nodes[n].flight.Asking?
    ensures var r := Next(strict, s, GrantFails(n, applied));
      r.key == s.key && r.nodes[n].flight.Raised? && (!applied ==> r.live == s.live) &&
      (applied ==> Orphan(r, |s.owners|) && r.live == s.live + {|s.owners|})
  {
    assert NodeInSys(s, n);
    var r := Next(strict, s, GrantFails(n, applied));
    forall m | 0 <= m < |r.nodes|
      ensures Unrelated(r.nodes[m], |s.owners|)
    {
      assert NodeInSys(s, m);
    }
  }

  /**
   A master whose refresh failed steps down without revoking: key and leases stay. It still names itself as the master,
   so `force_elect` is accepted and does nothing.
   */
  lemma LoserStillForces(s: Sys, n: nat)
    requires Inv(s) && n < |s.nodes| && s.nodes[n].running && s.nodes[n].flight == Refreshed(false)
    ensures var s1 := Next(true, s, Record(n));
      s1.key == s.key && s1.live == s.live && s1.nodes[n].calls == s.nodes[n].calls + [Lose] &&
      s1.nodes[n].masterId == s1.nodes[n].id && !s1.nodes[n].master && Next(true, s1, ForceElect(n, true)) == s1
  {
    assert NodeInSys(s, n);
  }

  /** Steps by which a node or its thread acts, or is stopped. */
  predicate ActsFor(step: Step, n: nat) {
    (step.Begin? || step.Grant? || step.GrantFails? || step.Cas? || step.CasFails? || step.Refresh? || step.Look? ||
      step.Record? ||
     step.Stop? || step.Crash?) && step.n == n
  }

  predicate Others(steps: seq<Step>, n: nat) {
    forall step | step in steps :: !ActsFor(step, n)
  }

  /** Whatever everybody else does, including a `force_elect` on this very node, leaves the node as it is. */
  lemma {:induction false} OthersLeaveAlone(strict: bool, s: Sys, steps: seq<Step>, n: nat)
    requires n < |s.nodes| && Others(steps, n)
    ensures var r := RunSteps(strict, s, steps);
      n < |r.nodes| && r.nodes[n] == s.nodes[n] && |s.owners| <= |r.owners|
    decreases |steps|
  {
    if steps != [] {
      assert steps[0] in steps;
      assert forall step | step in steps[1..] :: step in steps;
      OneLeavesAlone(strict, s, steps[0], n);
      OthersLeaveAlone(strict, Next(strict, s, steps[0]), steps[1..], n);
    }
  }

  lemma OneLeavesAlone(strict: bool, s: Sys, step: Step, n: nat)
    requires n < |s.nodes| && !ActsFor(step, n)
    ensures var r := Next(strict, s, step); n < |r.nodes| && r.nodes[n] == s.nodes[n] && |s.owners| <= |r.owners|
  {
  }

  /**
   The compare-and-swap that finds the key absent and its own lease alive wins, whatever happened since the lease was
   created; and whatever others do until the node records it, if only the lease stays alive, the node is then master,
   one term on, with one more become callback.
   */
  lemma FreeKeyIsWon(strict: bool, s: Sys, n: nat, before: seq<Step>, after: seq<Step>)
    requires Inv(s) && n < |s.nodes| && s.nodes[n].running && s.nodes[n].flight.Asking?
    requires Others(before, n) && Others(after, n)
    requires var s1 := RunSteps(strict, Next(strict, s, Grant(n)), before); s1.key.None? && |s.owners| in s1.live
    requires |s.owners| in RunSteps(strict, s, [Grant(n)] + before + [Cas(n)] + after).live
    ensures var r := RunSteps(strict, s, [Grant(n)] + before + [Cas(n)] + after + [Record(n)]);
      n < |r.nodes| && MasterWithLiveLease(r, n) && r.nodes[n].lease == Some(|s.owners|) &&
      r.key == Some(Key(s.nodes[n].id, |s.owners|)) &&
      r.nodes[n].term == s.nodes[n].term + 1 && r.nodes[n].calls == s.nodes[n].calls + [Become]
  {
    var lease := |s.owners|;
    assert NodeInSys(s, n);
    var s0 := Next(strict, s, Grant(n));
    OthersLeaveAlone(strict, s0, before, n);
    var s1 := RunSteps(strict, s0, before);
    var s2 := Next(strict, s1, Cas(n));
    assert s2.nodes[n].flight == Won(lease);
    OthersLeaveAlone(strict, s2, after, n);
    var s3 := RunSteps(strict, s2, after);
    hide RunSteps, Others;
    AroundCas(strict, s, n, before, after);
    RunKeeps(strict, s, [Grant(n)] + before + [Cas(n)] + after);
    assert NodeInSys(s3, n);
  }

  lemma AroundCas(strict: bool, s: Sys, n: nat, before: seq<Step>, after: seq<Step>)
    ensures var all := [Grant(n)] + before + [Cas(n)] + after;
      RunSteps(strict, s, all) ==
        RunSteps(strict, Next(strict, RunSteps(strict, Next(strict, s, Grant(n)), before), Cas(n)), after) &&
      RunSteps(strict, s, all + [Record(n)]) == Next(strict, RunSteps(strict, s, all), Record(n))
  {
    var all := [Grant(n)] + before + [Cas(n)] + after;
    RunOne(strict, s, Grant(n));
    RunConcat(strict, s, [Grant(n)], before);
    RunConcat(strict, s, [Grant(n)] + before, [Cas(n)]);
    RunOne(strict, RunSteps(strict, s, [Grant(n)] + before), Cas(n));
    RunConcat(strict, s, [Grant(n)] + before + [Cas(n)], after);
    RunConcat(strict, s, all, [Record(n)]);
    RunOne(strict, RunSteps(strict, s, all), Record(n));
  }

  lemma RunOne(strict: bool, s: Sys, a: Step)
    ensures RunSteps(strict, s, [a]) == Next(strict, s, a)
  {
    assert [a][1..] == [];
    assert RunSteps(strict, Next(strict, s, a), []) == Next(strict, s, a);
  }

  /** The master key stands unchanged at every point of the run. */
  predicate KeyStands(strict: bool, s: Sys, steps: seq<Step>, key: Key)
    decreases |steps|
  {
    s.key == Some(key) && (steps != [] ==> KeyStands(strict, Next(strict, s, steps[0]), steps[1..], key))
  }

  /** During the run the node records the holder of the key, having lost and read it. */
  predicate Learns(strict: bool, s: Sys, steps: seq<Step>, n: nat, key: Key)
    decreases |steps|
  {
    steps != [] &&
    ((steps[0] == Record(n) && n < |s.nodes| && s.nodes[n].running && s.nodes[n].flight == Seen(key.holder)) ||
     Learns(strict, Next(strict, s, steps[0]), steps[1..], n, key))
  }

  /** A node that is not master and has won nothing yet. */
  predicate Outside(s: Sys, n: nat) {
    n < |s.nodes| && !s.nodes[n].master && !s.nodes[n].flight.Won?
  }

  /** What the node has read about the master, if anything, is what the key says. */
  predicate SawKey(s: Sys, n: nat, key: Key)
    requires n < |s.nodes|
  {
    s.nodes[n].flight.Seen? ==> s.nodes[n].flight.holder == key.holder
  }

  /** Who the node may name as master after `x`, with the key standing. */
  predicate MayName(x: Node, key: Key, master: string) {
    master == x.masterId || master == key.holder || (x.flight.Seen? && master == x.flight.holder)
  }

  /** What the step of a standing key's election leaves of a node outside. */
  predicate StaysOutside(x: Node, y: Node, key: Key) {
    !y.master && !y.flight.Won? && y.term == x.term && y.calls == x.calls && MayName(x, key, y.masterId) &&
    (y.flight.Seen? ==> y.flight == x.flight || y.flight.holder == key.holder)
  }

  lemma HeldKeyStep(strict: bool, s: Sys, step: Step, n: nat, key: Key)
    requires Inv(s) && s.key == Some(key) && Outside(s, n)
    ensures var r := Next(strict, s, step);
      var x, y := s.nodes[n], r.nodes[n];
      n < |r.nodes| && StaysOutside(x, y, key) &&
      (step == Record(n) && x.running && x.flight == Seen(key.holder) && key.holder != "" ==> y.masterId == key.holder)
  {
    if ActsFor(step, n) {
      assert NodeInSys(s, n);
    } else {
      OneLeavesAlone(strict, s, step, n);
    }
  }

  /**
   While the key stands, whatever the interleaving, nobody else becomes master: a node that is not master and had not
   won before stays so, with its term and its callbacks. It takes no other name for the master than the key's holder,
   unless it had read another one before and not yet recorded it; and once it names the holder, it keeps that name.
   */
  lemma {:induction false} HeldKeyIsLost(strict: bool, s: Sys, steps: seq<Step>, n: nat, key: Key)
    requires Inv(s) && Outside(s, n) && KeyStands(strict, s, steps, key)
    ensures var r := RunSteps(strict, s, steps);
      Outside(r, n) &&
      var x, y := s.nodes[n], r.nodes[n];
      y.term == x.term && y.calls == x.calls && MayName(x, key, y.masterId) &&
      (SawKey(s, n, key) && key.holder != "" && (Learns(strict, s, steps, n, key) || x.masterId == key.holder) ==>
        y.masterId == key.holder)
    decreases |steps|
  {
    if steps != [] {
      NextKeeps(strict, s, steps[0]);
      HeldKeyStep(strict, s, steps[0], n, key);
      HeldKeyIsLost(strict, Next(strict, s, steps[0]), steps[1..], n, key);
    }
  }

  /** A live lease that no node holds and no node's attempt still uses. */
  predicate Orphan(s: Sys, lease: nat) {
    lease in s.live && lease < |s.owners| &&
    forall n | 0 <= n < |s.nodes| :: Unrelated(s.nodes[n], lease)
  }

  predicate Unrelated(x: Node, lease: nat) {
    x.lease != Some(lease) && x.flight != Granted(lease) && x.flight != Won(lease)
  }

  /** A lost acquisition orphans its lease. */
  lemma LostLeaseIsOrphan(strict: bool, s: Sys, n: nat)
    requires Inv(s) && n < |s.nodes| && s.nodes[n].flight.Granted? && s.nodes[n].flight.lease in s.live && s.key.Some?
    ensures Orphan(Next(strict, s, Cas(n)), s.nodes[n].flight.lease)
  {
    var lease := s.nodes[n].flight.lease;
    var r := Next(strict, s, Cas(n));
    assert NodeInSys(s, n);
    forall m | 0 <= m < |r.nodes|
      ensures Unrelated(r.nodes[m], lease)
    {
      assert NodeInSys(s, m);
    }
  }

  lemma OrphanStep(strict: bool, s: Sys, step: Step, lease: nat)
    requires Orphan(s, lease) && step != Expire(lease)
    ensures Orphan(Next(strict, s, step), lease)
  {
    OrphanLives(strict, s, step, lease);
    var r := Next(strict, s, step);
    forall m | 0 <= m < |r.nodes|
      ensures Unrelated(r.nodes[m], lease)
    {
      if m < |s.nodes| {
        assert Unrelated(s.nodes[m], lease);
        if !ActsFor(step, m) {
          OneLeavesAlone(strict, s, step, m);
        }
      }
    }
  }

  lemma OrphanLives(strict: bool, s: Sys, step: Step, lease: nat)
    requires Orphan(s, lease) && step != Expire(lease)
    ensures lease in Next(strict, s, step).live && lease < |Next(strict, s, step).owners|
  {
    if (step.ForceElect? || step.Stop?) && step.n < |s.nodes| {
      assert Unrelated(s.nodes[step.n], lease);
    }
  }

  /** And nothing but its expiry ever ends an orphaned lease: nobody revokes it and nobody takes it up again. */
  lemma {:induction false} OrphanStays(strict: bool, s: Sys, steps: seq<Step>, lease: nat)
    requires Orphan(s, lease) && Expire(lease) !in steps
    ensures Orphan(RunSteps(strict, s, steps), lease)
    decreases |steps|
  {
    if steps != [] {
      assert steps[0] in steps;
      OrphanStep(strict, s, steps[0], lease);
      OrphanStays(strict, Next(strict, s, steps[0]), steps[1..], lease);
    }
  }

  /** The hypothesis is needed: where refreshing a dead lease is answered quietly, the stale node stays master. */
  lemma QuietRefreshKeepsStale(s: Sys, n: nat)
    requires Stale(s, n) && s.nodes[n].running && s.nodes[n].flight.Idle?
    ensures var r := RunSteps(false, s, [Refresh(n, true), Record(n)]);
      Stale(r, n) && r.nodes[n].attempts == s.nodes[n].attempts + 1 && r.nodes[n].lease == s.nodes[n].lease
  {
    RunTwo(false, s, Refresh(n, true), Record(n));
  }

  // ---------- leases nobody revokes ----------

  /** The system with a clock, in milliseconds: `touched[l]` is when lease `l` was created or last refreshed. */
  datatype Clocked = Clocked(s: Sys, touched: seq<nat>, now: nat)

  datatype Tick = Tick(at: nat, step: Step)

  /** The steps that make a lease. */
  predicate Leases(step: Step) {
    step.Grant? || step.StrayGrant? || (step.GrantFails? && step.applied)
  }

  function Touch(strict: bool, c: Clocked, t: Tick): seq<nat> {
    if !Enabled(strict, c.s, t.step) then c.touched
    else
      match t.step
      case Refresh(n, _) =>
        var lease := c.s.nodes[n].lease.value;
        if lease < |c.touched| then c.touched[lease := t.at] else c.touched
      case _ => if Leases(t.step) then c.touched + [t.at] else c.touched
  }

  function Advance(strict: bool, c: Clocked, t: Tick): Clocked {
    Clocked(Next(strict, c.s, t.step), Touch(strict, c, t), t.at)
  }

  /** Time does not run backwards, and an attempt of a node comes at least a heartbeat after its previous one. */
  predicate Paced(c: Clocked, t: Tick, heartbeat: nat) {
    c.now <= t.at &&
    (Leases(t.step) || t.step.Refresh? ==>
      forall lease | 0 <= lease < |c.touched| && Owns(c.s, t.step.n, lease) :: c.touched[lease] + heartbeat <= t.at)
  }

  predicate PacedRun(strict: bool, c: Clocked, ticks: seq<Tick>, heartbeat: nat)
    decreases |ticks|
  {
    ticks != [] ==> Paced(c, ticks[0], heartbeat) && PacedRun(strict, Advance(strict, c, ticks[0]), ticks[1..],
      heartbeat)
  }

  function RunClock(strict: bool, c: Clocked, ticks: seq<Tick>): Clocked
    decreases |ticks|
  {
    if ticks == [] then c else RunClock(strict, Advance(strict, c, ticks[0]), ticks[1..])
  }

  const CLOCK_START := Clocked(START, [], 0)

  /** No two leases of one node were touched by the same attempt. */
  predicate Spaced(c: Clocked, heartbeat: nat) {
    |c.touched| == |c.s.owners| && (forall lease | 0 <= lease < |c.touched| :: c.touched[lease] <= c.now) &&
    forall a, b | 0 <= a < |c.touched| && 0 <= b < |c.touched| && a != b && c.s.owners[a] == c.s.owners[b] ::
      Apart(c.touched[a], c.touched[b], heartbeat)
  }

  predicate Apart(x: nat, y: nat, heartbeat: nat) {
    x + heartbeat <= y || y + heartbeat <= x
  }

  /** A lease never changes its owner. */
  lemma OwnersGrow(strict: bool, s: Sys, step: Step)
    ensures Next(strict, s, step).owners ==
            if Leases(step) && Enabled(strict, s, step) then s.owners + [step.n] else s.owners
  {
  }

  lemma AdvanceSpaced(strict: bool, c: Clocked, t: Tick, heartbeat: nat)
    requires Inv(c.s) && Spaced(c, heartbeat) && Paced(c, t, heartbeat)
    ensures Spaced(Advance(strict, c, t), heartbeat)
  {
    OwnersGrow(strict, c.s, t.step);
    if t.step.Refresh? && Enabled(strict, c.s, t.step) {
      assert NodeInSys(c.s, t.step.n);
      assert Owns(c.s, t.step.n, c.s.nodes[t.step.n].lease.value);
    }
    hide Next, Inv;
    var d := Advance(strict, c, t);
    forall a, b | 0 <= a < |d.touched| && 0 <= b < |d.touched| && a != b && d.s.owners[a] == d.s.owners[b]
      ensures Apart(d.touched[a], d.touched[b], heartbeat)
    {
      assert a < |c.touched| && b < |c.touched| ==> Apart(c.touched[a], c.touched[b], heartbeat);
    }
  }

  lemma {:induction false} RunSpaced(strict: bool, c: Clocked, ticks: seq<Tick>, heartbeat: nat)
    requires Inv(c.s) && Spaced(c, heartbeat) && PacedRun(strict, c, ticks, heartbeat)
    ensures Spaced(RunClock(strict, c, ticks), heartbeat)
    decreases |ticks|
  {
    if ticks != [] {
      AdvanceSpaced(strict, c, ticks[0], heartbeat);
      NextKeeps(strict, c.s, ticks[0].step);
      RunSpaced(strict, Advance(strict, c, ticks[0]), ticks[1..], heartbeat);
    }
  }

  /** The live leases created for one node, held, pending or orphaned. */
  function LiveLeases(s: Sys, n: nat): set<nat> {
    set lease | lease in s.live && Owns(s, n, lease)
  }

  /** Times in a window, each a heartbeat from the others, are few. */
  lemma {:induction false} FewInWindow(leases: set<nat>, touched: seq<nat>, heartbeat: nat, lo: int, hi: int)
    requires leases != {} && forall a | a in leases :: a < |touched| && lo < touched[a] <= hi
    requires forall a, b | a in leases && b in leases && a != b :: Apart(touched[a], touched[b], heartbeat)
    ensures (|leases| - 1) * heartbeat < hi - lo
    decreases |leases|
  {
    var last := Latest(leases, touched);
    var rest := leases - {last};
    if rest != {} {
      forall a | a in rest
        ensures touched[a] <= hi - heartbeat
      {
        assert Apart(touched[a], touched[last], heartbeat);
      }
      FewInWindow(rest, touched, heartbeat, lo, hi - heartbeat);
      assert (|leases| - 1) * heartbeat == (|rest| - 1) * heartbeat + heartbeat;
    } else {
      assert leases == {last};
    }
  }

  lemma {:induction false} Latest(leases: set<nat>, touched: seq<nat>) returns (last: nat)
    requires leases != {} && forall a | a in leases :: a < |touched|
    ensures last in leases && forall a | a in leases :: touched[a] <= touched[last]
    decreases |leases|
  {
    last :| last in leases;
    if leases != {last} {
      var other := Latest(leases - {last}, touched);
      assert forall a | a in leases :: a == last || a in leases - {last};
      last := if touched[last] <= touched[other] then other else last;
    }
  }

  /**
   Every failed acquisition leaves a lease that only its expiry removes. With a node's attempts at least a heartbeat
   apart, and once etcd has ended what was not touched for the time to live, no more than floor(ttl / heartbeat) + 1
   leases of that node are alive, at any point of any run.
   */
  lemma LeaseGarbageBounded(strict: bool, ticks: seq<Tick>, n: nat, heartbeat: nat, ttl: nat)
    requires heartbeat > 0 && PacedRun(strict, CLOCK_START, ticks, heartbeat)
    requires var c := RunClock(strict, CLOCK_START, ticks);
      forall lease | lease in c.s.live && lease < |c.touched| :: c.now < c.touched[lease] + ttl
    ensures |LiveLeases(RunClock(strict, CLOCK_START, ticks).s, n)| <= ttl / heartbeat + 1
  {
    RunSpaced(strict, CLOCK_START, ticks, heartbeat);
    var c := RunClock(strict, CLOCK_START, ticks);
    var leases := LiveLeases(c.s, n);
    hide RunClock, PacedRun;
    if leases != {} {
      FewLive(leases, c.touched, heartbeat, c.now, ttl);
    }
  }

  lemma FewLive(leases: set<nat>, touched: seq<nat>, heartbeat: nat, now: nat, ttl: nat)
    requires heartbeat > 0 && leases != {}
    requires forall a | a in leases :: a < |touched| && touched[a] <= now < touched[a] + ttl
    requires forall a, b | a in leases && b in leases && a != b :: Apart(touched[a], touched[b], heartbeat)
    ensures |leases| <= ttl / heartbeat + 1
  {
    FewInWindow(leases, touched, heartbeat, now - ttl, now);
    assert now - (now - ttl) == ttl;
    QuotientBound(|leases| - 1, heartbeat, ttl);
  }

  lemma QuotientBound(a: nat, h: nat, t: nat)
    requires h > 0 && a * h < t
    ensures a <= t / h
  {
    assert t == t / h * h + t % h;
    assert (t / h + 1) * h == t / h * h + h;
    if a > t / h {
      Times(t / h + 1, a, h);
    }
  }
}
