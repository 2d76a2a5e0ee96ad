/** The policy scheduler: which clusters a policy drains, where to, and what one failing policy can do to the others. */
module Scheduling {
  import opened Text
  import opened Wrappers

  datatype Snapshot = Snapshot(id: string, name: string, addr: string, cpu: real, ram: real, disk: real, vms: int)

  datatype Rule = Rule(trigger: string, action: string, target: string)

  /** `rule` is missing when the stored one is not a mapping; applying such a policy raises. */
  datatype Policy = Policy(name: string, enabled: bool, rule: Option<Rule>)

  datatype Vm = Vm(id: string, active: bool)

  datatype Migration = Migration(vm: string, source: string, dest: string, live: bool)

  /** What the outside answers to one rebalance: the local servers, and whether the new row can be written. */
  datatype Answer = ListRaises | Listed(vms: seq<Vm>, dbRaises: bool)

  /** A trigger expression sees only the metrics; an expression that raises is false. */
  type Trigger = (string, real, real, real, int) -> bool

  predicate Fires(t: Trigger, expr: string, s: Snapshot) {
    t(expr, s.cpu, s.ram, s.disk, s.vms)
  }

  function Violating(t: Trigger, expr: string, snaps: seq<Snapshot>): seq<Snapshot> {
    if snaps == [] then []
    else (if Fires(t, expr, snaps[0]) then [snaps[0]] else []) + Violating(t, expr, snaps[1..])
  }

  /** Those that are not, compared field by field, among `others`. */
  function NotIn(snaps: seq<Snapshot>, others: seq<Snapshot>): seq<Snapshot> {
    if snaps == [] then []
    else (if snaps[0] in others then [] else [snaps[0]]) + NotIn(snaps[1..], others)
  }

  function Candidates(t: Trigger, expr: string, snaps: seq<Snapshot>): seq<Snapshot> {
    NotIn(snaps, Violating(t, expr, snaps))
  }

  function Cost(strategy: string, s: Snapshot): real {
    if strategy == "least_loaded" then s.cpu + s.ram
    else if strategy == "least_vms" then s.vms as real
    else 0.0
  }

  /** Python's `min` with a key: of equally good ones the first. */
  function FirstMin(strategy: string, cands: seq<Snapshot>): Snapshot
    requires cands != []
  {
    if |cands| == 1 then cands[0]
    else
      var best := FirstMin(strategy, cands[..|cands| - 1]);
      if Cost(strategy, cands[|cands| - 1]) < Cost(strategy, best) then cands[|cands| - 1] else best
  }

  function PickDest(cands: seq<Snapshot>, strategy: string): Snapshot
    requires cands != []
  {
    if strategy == "least_loaded" || strategy == "least_vms" then FirstMin(strategy, cands) else cands[0]
  }

  function FirstActive(vms: seq<Vm>): Option<Vm> {
    if vms == [] then None else if vms[0].active then Some(vms[0]) else FirstActive(vms[1..])
  }

  datatype Applied = Applied(queued: seq<Migration>, raised: bool)

  /** One rebalance: at most one record, none if no local server is active. */
  function Rebalance(a: Answer, source: Snapshot, dest: Snapshot, live: bool): Applied {
    if a.ListRaises? then Applied([], true)
    else
      var vm := FirstActive(a.vms);
      if vm.None? then Applied([], false)
      else if a.dbRaises then Applied([], true)
      else Applied([Migration(vm.value.id, source.id, dest.id, live)], false)
  }

  /** One rebalance per source; the first that raises ends the policy. */
  function RebalanceAll(answers: nat -> Answer, call: nat, sources: seq<Snapshot>, dest: Snapshot, live: bool): Applied
    decreases |sources|
  {
    if sources == [] then Applied([], false)
    else
      var first := Rebalance(answers(call), sources[0], dest, live);
      if first.raised then first
      else
        var rest := RebalanceAll(answers, call + 1, sources[1..], dest, live);
        Applied(first.queued + rest.queued, rest.raised)
  }

  predicate IsLive(action: string) {
    Contains(action, "live")
  }

  function ApplyPolicy(t: Trigger, p: Policy, snaps: seq<Snapshot>, answers: nat -> Answer): Applied {
    if p.rule.None? then Applied([], true)
    else
      var rule := p.rule.value;
      var cands := Candidates(t, rule.trigger, snaps);
      if Violating(t, rule.trigger, snaps) == [] || cands == [] then Applied([], false)
      else RebalanceAll(answers, 0, Violating(t, rule.trigger, snaps), PickDest(cands, rule.target),
        IsLive(rule.action))
  }

  /** What one enabled policy queues in an evaluation, raising or not. */
  function Output(t: Trigger, p: Policy, snaps: seq<Snapshot>, answers: nat -> Answer): seq<Migration> {
    if p.enabled then ApplyPolicy(t, p, snaps, answers).queued else []
  }

  /** What an evaluation queues; `answers(i)` are the answers given while policy `i` is applied. */
  function Evaluated(t: Trigger, ps: seq<Policy>, snaps: seq<Snapshot>, answers: nat -> nat -> Answer): seq<Migration> {
    if ps == [] then []
    else
      var n := |ps| - 1;
      Evaluated(t, ps[..n], snaps, answers) + Output(t, ps[n], snaps, answers(n))
  }

  // ---------- one rebalance, by what is answered to it ----------

  predicate AnyActive(vms: seq<Vm>) {
    exists i | 0 <= i < |vms| :: vms[i].active
  }

  predicate FirstActiveAt(vms: seq<Vm>, i: nat) {
    i < |vms| && vms[i].active && forall k | 0 <= k < i :: !vms[k].active
  }

  /** The answer makes the rebalance raise: the listing itself, or the write of a record there was one for. */
  predicate Fails(a: Answer) {
    a.ListRaises? || (a.dbRaises && AnyActive(a.vms))
  }

  predicate Queues(a: Answer) {
    a.Listed? && AnyActive(a.vms) && !a.dbRaises
  }

  /** The record asks for the first active server that was listed. */
  predicate TakesFirst(a: Answer, m: Migration) {
    a.Listed? && exists i | 0 <= i < |a.vms| :: FirstActiveAt(a.vms, i) && m.vm == a.vms[i].id
  }

  lemma {:induction false} FirstActiveIs(vms: seq<Vm>)
    ensures FirstActive(vms).Some? <==> AnyActive(vms)
    ensures forall i: nat | FirstActiveAt(vms, i) :: FirstActive(vms) == Some(vms[i])
    ensures AnyActive(vms) ==> exists i: nat :: FirstActiveAt(vms, i)
    decreases |vms|
  {
    if vms != [] {
      FirstActiveIs(vms[1..]);
      if vms[0].active {
        assert FirstActiveAt(vms, 0);
      } else {
        forall i: nat | 0 < i < |vms|
          ensures FirstActiveAt(vms, i) <==> FirstActiveAt(vms[1..], i - 1)
        {
          assert forall k | 0 < k < |vms| :: vms[1..][k - 1] == vms[k];
        }
        if AnyActive(vms[1..]) {
          var i: nat :| FirstActiveAt(vms[1..], i);
          assert FirstActiveAt(vms, i + 1);
        }
      }
    }
  }

  /**
   One record is queued exactly if the servers could be listed, one of them is active and the record could be written;
   it moves the first active one from the source to the destination. The rebalance raises exactly if the listing did,
   or if a server is active and the write raised.
   */
  lemma RebalanceQueues(a: Answer, source: Snapshot, dest: Snapshot, live: bool)
    ensures var r := Rebalance(a, source, dest, live);
      (r.raised <==> Fails(a)) && (r.queued != [] <==> Queues(a)) &&
      (Queues(a) ==>
        |r.queued| == 1 && TakesFirst(a, r.queued[0]) && r.queued[0].source == source.id &&
        r.queued[0].dest == dest.id && r.queued[0].live == live)
  {
    if a.Listed? {
      FirstActiveIs(a.vms);
    }
  }

  // ---------- the scheduler object ----------

  class Scheduler {
    const trigger: Trigger
    const answers: nat -> nat -> Answer
    var isMaster: bool
    var queued: seq<Migration>

    constructor (trigger: Trigger, answers: nat -> nat -> Answer)
      ensures this.trigger == trigger && this.answers == answers && !isMaster && queued == []
    {
      this.trigger := trigger;
      this.answers := answers;
      isMaster := false;
      queued := [];
    }

    method SetMaster(flag: bool)
      modifies this`isMaster
      ensures isMaster == flag
    {
      isMaster := flag;
    }

    method TriggerRebalance(a: Answer, source: Snapshot, dest: Snapshot, live: bool) returns (raised: bool)
      modifies this`queued
      ensures Applied(queued, raised) ==
              Applied(old(queued) + Rebalance(a, source, dest, live).queued, Rebalance(a, source, dest, live).raised)
      ensures raised <==> Fails(a)
      ensures if Queues(a) then
                |queued| == |old(queued)| + 1 && old(queued) <= queued && TakesFirst(a, queued[|old(queued)|])
              else queued == old(queued)
    {
      RebalanceQueues(a, source, dest, live);
      if a.ListRaises? {
        return true;
      }
      var i := 0;
      while i < |a.vms| && !a.vms[i].active
        invariant 0 <= i <= |a.vms|
        invariant FirstActive(a.vms) == FirstActive(a.vms[i..])
      {
        assert a.vms[i..][0] == a.vms[i] && a.vms[i..][1..] == a.vms[i + 1..];
        i := i + 1;
      }
      if i == |a.vms| {
        return false;
      }
      assert a.vms[i..][0] == a.vms[i];
      if a.dbRaises {
        return true;
      }
      queued := queued + [Migration(a.vms[i].id, source.id, dest.id, live)];
      raised := false;
    }

    method RebalanceFrom(violating: seq<Snapshot>, dest: Snapshot, live: bool, mine: nat -> Answer)
      returns (raised: bool)
      modifies this`queued
      ensures var all := RebalanceAll(mine, 0, violating, dest, live);
        queued == old(queued) + all.queued && raised == all.raised
    {
      ghost var all := RebalanceAll(mine, 0, violating, dest, live);
      assert violating[0..] == violating;
      var i := 0;
      while i < |violating|
        invariant 0 <= i <= |violating|
        invariant var rest := RebalanceAll(mine, i, violating[i..], dest, live);
          old(queued) + all.queued == queued + rest.queued && all.raised == rest.raised
      {
        assert violating[i..][0] == violating[i] && violating[i..][1..] == violating[i + 1..];
        ghost var now := queued;
        ghost var first := Rebalance(mine(i), violating[i], dest, live);
        ghost var rest := RebalanceAll(mine, i + 1, violating[i + 1..], dest, live);
        var failed := TriggerRebalance(mine(i), violating[i], dest, live);
        if failed {
          return true;
        }
        Associative(now, first.queued, rest.queued);
        i := i + 1;
      }
      raised := false;
    }

    method ApplyPolicyTo(p: Policy, snaps: seq<Snapshot>, mine: nat -> Answer) returns (raised: bool)
      modifies this`queued
      ensures queued == old(queued) + ApplyPolicy(trigger, p, snaps, mine).queued
      ensures raised == ApplyPolicy(trigger, p, snaps, mine).raised
    {
      if p.rule.None? {
        return true;
      }
      var rule := p.rule.value;
      var violating := Violating(trigger, rule.trigger, snaps);
      if violating == [] {
        return false;
      }
      var cands := NotIn(snaps, violating);
      if cands == [] {
        return false;
      }
      raised := RebalanceFrom(violating, PickDest(cands, rule.target), IsLive(rule.action), mine);
    }

    /** Applies every enabled policy; an exception in one is logged and the next one is applied. */
    method Evaluate(ps: seq<Policy>, snaps: seq<Snapshot>)
      modifies this`queued
      ensures queued == old(queued) + Evaluated(trigger, ps, snaps, answers)
    {
      var i := 0;
      while i < |ps|
        invariant 0 <= i <= |ps|
        invariant queued == old(queued) + Evaluated(trigger, ps[..i], snaps, answers)
      {
        EvaluatedSnoc(trigger, ps, snaps, answers, i);
        Associative(old(queued), Evaluated(trigger, ps[..i], snaps, answers),
          Output(trigger, ps[i], snaps, answers(i)));
        if ps[i].enabled {
          var raised := ApplyPolicyTo(ps[i], snaps, answers(i));
        }
        i := i + 1;
      }
      assert ps[..i] == ps;
    }

    /** One round of the scheduler's loop: only a master evaluates. */
    method Round(ps: seq<Policy>, snaps: seq<Snapshot>)
      modifies this`queued
      ensures queued == old(queued) + if isMaster then Evaluated(trigger, ps, snaps, answers) else []
    {
      if isMaster {
        Evaluate(ps, snaps);
      }
    }
  }

  // ---------- what the policies do ----------

  predicate UniqueIds(snaps: seq<Snapshot>) {
    forall i, k | 0 <= i < k < |snaps| :: snaps[i].id != snaps[k].id
  }

  lemma {:induction false} ViolatingExactly(t: Trigger, expr: string, snaps: seq<Snapshot>)
    ensures forall s :: s in Violating(t, expr, snaps) <==> s in snaps && Fires(t, expr, s)
    decreases |snaps|
  {
    if snaps != [] {
      ViolatingExactly(t, expr, snaps[1..]);
      assert forall s :: s in snaps <==> s == snaps[0] || s in snaps[1..];
    }
  }

  lemma {:induction false} NotInExactly(snaps: seq<Snapshot>, others: seq<Snapshot>)
    ensures forall s :: s in NotIn(snaps, others) <==> s in snaps && s !in others
    decreases |snaps|
  {
    if snaps != [] {
      NotInExactly(snaps[1..], others);
      assert forall s :: s in snaps <==> s == snaps[0] || s in snaps[1..];
    }
  }

  /** Comparing snapshots field by field splits the clusters exactly by the trigger, even if ids repeat. */
  lemma PartitionByTrigger(t: Trigger, expr: string, snaps: seq<Snapshot>)
    ensures forall s | s in snaps :: s in Violating(t, expr, snaps) <==> Fires(t, expr, s)
    ensures forall s :: s in Candidates(t, expr, snaps) <==> s in snaps && !Fires(t, expr, s)
  {
    ViolatingExactly(t, expr, snaps);
    NotInExactly(snaps, Violating(t, expr, snaps));
  }

  /** The chosen cluster is the first minimiser: strictly better than all before it, at least as good as all after. */
  lemma {:induction false} FirstMinIsFirst(strategy: string, cands: seq<Snapshot>) returns (i: nat)
    requires cands != []
    ensures i < |cands| && FirstMin(strategy, cands) == cands[i]
    ensures forall k | 0 <= k < i :: Cost(strategy, cands[i]) < Cost(strategy, cands[k])
    ensures forall k | i <= k < |cands| :: Cost(strategy, cands[i]) <= Cost(strategy, cands[k])
    decreases |cands|
  {
    var n := |cands| - 1;
    if n == 0 {
      i := 0;
    } else {
      i := FirstMinIsFirst(strategy, cands[..n]);
      if Cost(strategy, cands[n]) < Cost(strategy, cands[i]) {
        i := n;
      }
    }
  }

  /** An unknown strategy means the first candidate; the two known ones a first minimiser of their own measure. */
  lemma DestIsBest(cands: seq<Snapshot>, strategy: string) returns (i: nat)
    requires cands != []
    ensures i < |cands| && PickDest(cands, strategy) == cands[i]
    ensures strategy == "least_loaded" ==>
      (forall k | 0 <= k < i :: cands[i].cpu + cands[i].ram < cands[k].cpu + cands[k].ram) &&
      (forall k | i <= k < |cands| :: cands[i].cpu + cands[i].ram <= cands[k].cpu + cands[k].ram)
    ensures strategy == "least_vms" ==>
      (forall k | 0 <= k < i :: cands[i].vms < cands[k].vms) &&
        (forall k | i <= k < |cands| :: cands[i].vms <= cands[k].vms)
    ensures strategy != "least_loaded" && strategy != "least_vms" ==> i == 0
  {
    if strategy == "least_loaded" || strategy == "least_vms" {
      i := FirstMinIsFirst(strategy, cands);
      assert forall k | 0 <= k < i :: Cost(strategy, cands[i]) < Cost(strategy, cands[k]);
      assert forall k | i <= k < |cands| :: Cost(strategy, cands[i]) <= Cost(strategy, cands[k]);
    } else {
      i := 0;
    }
  }

  predicate AllTo(ms: seq<Migration>, dest: string) {
    forall m | m in ms :: m.dest == dest
  }

  lemma {:induction false} RebalanceRecords(
    answers: nat -> Answer, call: nat, sources: seq<Snapshot>, dest: Snapshot, live: bool)
    ensures var r := RebalanceAll(answers, call, sources, dest, live);
      AllTo(r.queued, dest.id) && (forall m | m in r.queued :: m.live == live) &&
      |r.queued| <= |sources| && forall m | m in r.queued :: exists s | s in sources :: m.source == s.id
    decreases |sources|
  {
    if sources != [] {
      RebalanceRecords(answers, call + 1, sources[1..], dest, live);
      assert sources[0] in sources;
      assert forall s | s in sources[1..] :: s in sources;
    }
  }

  /** At most one record per source: with unique ids no two records of a policy drain the same cluster. */
  lemma {:induction false} OneRecordPerSource(
    answers: nat -> Answer, call: nat, sources: seq<Snapshot>, dest: Snapshot, live: bool)
    requires UniqueIds(sources)
    ensures var ms := RebalanceAll(answers, call, sources, dest, live).queued;
      forall i, k | 0 <= i < k < |ms| :: ms[i].source != ms[k].source
    decreases |sources|
  {
    if sources != [] {
      var rest := RebalanceAll(answers, call + 1, sources[1..], dest, live).queued;
      var ms := RebalanceAll(answers, call, sources, dest, live).queued;
      OneRecordPerSource(answers, call + 1, sources[1..], dest, live);
      RebalanceRecords(answers, call + 1, sources[1..], dest, live);
      if !Rebalance(answers(call), sources[0], dest, live).raised && |ms| == |rest| + 1 {
        assert ms == [ms[0]] + rest;
        forall k | 0 < k < |ms|
          ensures ms[0].source != ms[k].source
        {
          assert ms[k] == rest[k - 1] && rest[k - 1] in rest;
          var s :| s in sources[1..] && ms[k].source == s.id;
          var i :| 0 <= i < |sources[1..]| && sources[1..][i] == s;
          assert sources[i + 1] == s;
        }
      }
    }
  }

  lemma {:induction false} ViolatingUnique(t: Trigger, expr: string, snaps: seq<Snapshot>)
    requires UniqueIds(snaps)
    ensures UniqueIds(Violating(t, expr, snaps))
    decreases |snaps|
  {
    if snaps != [] {
      ViolatingUnique(t, expr, snaps[1..]);
      ViolatingExactly(t, expr, snaps[1..]);
      var rest := Violating(t, expr, snaps[1..]);
      var all := Violating(t, expr, snaps);
      if Fires(t, expr, snaps[0]) {
        assert all == [snaps[0]] + rest;
        forall k | 0 < k < |all|
          ensures all[0].id != all[k].id
        {
          assert all[k] == rest[k - 1] && rest[k - 1] in rest;
          var i :| 0 <= i < |snaps[1..]| && snaps[1..][i] == all[k];
          assert snaps[i + 1] == all[k];
        }
      } else {
        assert all == rest;
      }
    }
  }

  /** Where a violating cluster stands among those a policy drains: behind the violating ones before it. */
  lemma {:induction false} ViolatingAt(t: Trigger, expr: string, snaps: seq<Snapshot>, i: nat)
    requires i < |snaps| && Fires(t, expr, snaps[i])
    ensures var k := |Violating(t, expr, snaps[..i])|;
      k < |Violating(t, expr, snaps)| && Violating(t, expr, snaps)[k] == snaps[i]
    decreases |snaps|
  {
    if i == 0 {
      assert snaps[..0] == [];
    } else {
      ViolatingAt(t, expr, snaps[1..], i - 1);
      assert snaps[..i][1..] == snaps[1..][..i - 1];
    }
  }

  lemma {:induction false} NotInAt(snaps: seq<Snapshot>, others: seq<Snapshot>, i: nat)
    requires i < |snaps| && snaps[i] !in others
    ensures var k := |NotIn(snaps[..i], others)|;
      k < |NotIn(snaps, others)| && NotIn(snaps, others)[k] == snaps[i]
    decreases |snaps|
  {
    if i == 0 {
      assert snaps[..0] == [];
    } else {
      NotInAt(snaps[1..], others, i - 1);
      assert snaps[..i][1..] == snaps[1..][..i - 1];
    }
  }

  /** The filter keeps the order. */
  lemma NotInOrdered(snaps: seq<Snapshot>, others: seq<Snapshot>, i: nat, k: nat)
    requires i < k < |snaps| && snaps[i] !in others
    ensures |NotIn(snaps[..i], others)| < |NotIn(snaps[..k], others)|
  {
    assert snaps[..k][..i] == snaps[..i];
    NotInAt(snaps[..k], others, i);
  }

  /** The records a policy's rebalances leave for the `k`-th cluster it drains. */
  lemma {:induction false} RebalancedAt(
    answers: nat -> Answer, call: nat, sources: seq<Snapshot>, dest: Snapshot, live: bool, k: nat)
    requires UniqueIds(sources) && k < |sources|
    ensures var ms := RebalanceAll(answers, call, sources, dest, live).queued;
      Serves(ms, sources[k].id, answers(call + k), NoneFails(answers, call, call + k))
    decreases |sources|
  {
    UniqueTail(sources, k);
    if k == 0 {
      ServesHead(answers, call, sources, dest, live);
    } else {
      RebalancedAt(answers, call + 1, sources[1..], dest, live, k - 1);
      ServesTail(answers, call, sources, dest, live, sources[k].id, k);
    }
  }

  lemma RebalanceAllCons(answers: nat -> Answer, call: nat, sources: seq<Snapshot>, dest: Snapshot, live: bool)
    requires sources != []
    ensures var first := Rebalance(answers(call), sources[0], dest, live);
      var rest := RebalanceAll(answers, call + 1, sources[1..], dest, live);
      RebalanceAll(answers, call, sources, dest, live) ==
        if first.raised then first else Applied(first.queued + rest.queued, rest.raised)
  {
  }

  lemma ServesHead(answers: nat -> Answer, call: nat, sources: seq<Snapshot>, dest: Snapshot, live: bool)
    requires UniqueIds(sources) && sources != []
    ensures var ms := RebalanceAll(answers, call, sources, dest, live).queued;
      Serves(ms, sources[0].id, answers(call), NoneFails(answers, call, call))
  {
    var first := Rebalance(answers(call), sources[0], dest, live);
    var rest := RebalanceAll(answers, call + 1, sources[1..], dest, live).queued;
    RebalanceQueues(answers(call), sources[0], dest, live);
    RebalanceRecords(answers, call + 1, sources[1..], dest, live);
    RebalanceAllCons(answers, call, sources, dest, live);
    hide Rebalance, RebalanceAll, TakesFirst;
    NotAmong(sources, rest);
    ServedFirst(first.queued, rest, sources[0].id, answers(call));
  }

  lemma ServesTail(
    answers: nat -> Answer, call: nat, sources: seq<Snapshot>, dest: Snapshot, live: bool, source: string, k: nat)
    requires sources != [] && sources[0].id != source && k > 0
    requires Serves(RebalanceAll(answers, call + 1, sources[1..], dest, live).queued, source, answers(call + k),
                    NoneFails(answers, call + 1, call + k))
    ensures Serves(RebalanceAll(answers, call, sources, dest, live).queued, source, answers(call + k),
                   NoneFails(answers, call, call + k))
  {
    var first := Rebalance(answers(call), sources[0], dest, live);
    var rest := RebalanceAll(answers, call + 1, sources[1..], dest, live).queued;
    RebalanceQueues(answers(call), sources[0], dest, live);
    assert Fails(answers(call)) ==> !Queues(answers(call));
    RebalanceAllCons(answers, call, sources, dest, live);
    NoneFailsCons(answers, call, call + k);
    hide Rebalance, RebalanceAll, TakesFirst, Queues, Fails, NoneFails, UniqueIds;
    if first.raised {
      assert first.queued == [];
    } else {
      ServedBehind(first.queued, rest, sources[0].id, source, answers(call + k),
                   NoneFails(answers, call + 1, call + k));
    }
  }

  lemma NoneFailsCons(answers: nat -> Answer, from: nat, until: nat)
    requires from < until
    ensures NoneFails(answers, from, until) <==> !Fails(answers(from)) && NoneFails(answers, from + 1, until)
  {
  }

  lemma UniqueTail(sources: seq<Snapshot>, k: nat)
    requires UniqueIds(sources) && k < |sources|
    ensures k > 0 ==> UniqueIds(sources[1..]) && sources[1..][k - 1] == sources[k] && sources[0].id != sources[k].id
  {
  }

  predicate NoneFails(answers: nat -> Answer, from: nat, until: nat) {
    forall c | from <= c < until :: !Fails(answers(c))
  }

  /** There is a record for this source exactly if it is due and the answer queues one, for the first active server. */
  predicate Serves(ms: seq<Migration>, source: string, a: Answer, due: bool) {
    ((exists m | m in ms :: m.source == source) <==> due && Queues(a)) &&
    forall m | m in ms && m.source == source :: TakesFirst(a, m)
  }

  lemma ServedBehind(
    first: seq<Migration>, rest: seq<Migration>, other: string, source: string, a: Answer, due: bool)
    requires Serves(rest, source, a, due) && other != source && forall m | m in first :: m.source == other
    ensures Serves(first + rest, source, a, due)
  {
    var ms := first + rest;
    assert forall m :: m in ms <==> m in first || m in rest;
    assert (exists m | m in ms :: m.source == source) <==> exists m | m in rest :: m.source == source;
  }

  lemma ServedFirst(first: seq<Migration>, rest: seq<Migration>, source: string, a: Answer)
    requires (first != [] <==> Queues(a)) && forall m | m in first :: m.source == source && TakesFirst(a, m)
    requires forall m | m in rest :: m.source != source
    ensures Serves(first + rest, source, a, true)
  {
    var ms := first + rest;
    assert forall m :: m in ms <==> m in first || m in rest;
    if first != [] {
      assert first[0] in ms;
    }
  }

  lemma NotAmong(sources: seq<Snapshot>, rest: seq<Migration>)
    requires sources != [] && UniqueIds(sources)
    requires forall m | m in rest :: exists s | s in sources[1..] :: m.source == s.id
    ensures forall m | m in rest :: m.source != sources[0].id
  {
    forall m | m in rest
      ensures m.source != sources[0].id
    {
      var x :| x in sources[1..] && m.source == x.id;
      var i :| 0 <= i < |sources[1..]| && sources[1..][i] == x;
      assert sources[i + 1] == x;
    }
  }

  lemma {:induction false} RebalancesRaise(
    answers: nat -> Answer, call: nat, sources: seq<Snapshot>, dest: Snapshot, live: bool)
    ensures RebalanceAll(answers, call, sources, dest, live).raised <==> !NoneFails(answers, call, call + |sources|)
    decreases |sources|
  {
    if sources != [] {
      RebalanceQueues(answers(call), sources[0], dest, live);
      hide Rebalance, Fails;
      RebalancesRaise(answers, call + 1, sources[1..], dest, live);
    }
  }

  /** `snaps[x]` is the best of the clusters that do not violate the rule, by the rule's strategy, ties to the first. */
  predicate Best(t: Trigger, rule: Rule, snaps: seq<Snapshot>, x: nat) {
    x < |snaps| && !Fires(t, rule.trigger, snaps[x]) &&
    forall y | 0 <= y < |snaps| && !Fires(t, rule.trigger, snaps[y]) ::
      Preferred(rule.target, snaps[x], snaps[y], x <= y)
  }

  /** A cluster preferred to another by a strategy; `first` says whether it also comes first. */
  predicate Preferred(strategy: string, a: Snapshot, b: Snapshot, first: bool) {
    if strategy == "least_loaded" then
      if first then a.cpu + a.ram <= b.cpu + b.ram else a.cpu + a.ram < b.cpu + b.ram
    else if strategy == "least_vms" then if first then a.vms <= b.vms else a.vms < b.vms
    else first
  }

  lemma BestPicked(t: Trigger, rule: Rule, snaps: seq<Snapshot>) returns (x: nat)
    requires Candidates(t, rule.trigger, snaps) != []
    ensures Best(t, rule, snaps, x) && PickDest(Candidates(t, rule.trigger, snaps), rule.target) == snaps[x]
  {
    var others := Violating(t, rule.trigger, snaps);
    var cands := Candidates(t, rule.trigger, snaps);
    var i := DestIsBest(cands, rule.target);
    x := NotInSource(snaps, others, i);
    PartitionByTrigger(t, rule.trigger, snaps);
    assert cands[i] in cands && snaps[x] in snaps;
    forall y | 0 <= y < |snaps| && !Fires(t, rule.trigger, snaps[y])
      ensures Preferred(rule.target, snaps[x], snaps[y], x <= y)
    {
      assert snaps[y] in snaps && snaps[y] !in others;
      var k := |NotIn(snaps[..y], others)|;
      NotInAt(snaps, others, y);
      if y < x {
        NotInOrdered(snaps, others, y, x);
      } else if x < y {
        NotInOrdered(snaps, others, x, y);
      }
      assert k < i <==> y < x;
    }
  }

  /** Where an element of the filtered list comes from. */
  lemma {:induction false} NotInSource(snaps: seq<Snapshot>, others: seq<Snapshot>, i: nat) returns (x: nat)
    requires i < |NotIn(snaps, others)|
    ensures x < |snaps| && snaps[x] == NotIn(snaps, others)[i] && snaps[x] !in others
    ensures |NotIn(snaps[..x], others)| == i
    decreases |snaps|
  {
    if snaps[0] !in others && i == 0 {
      x := 0;
      assert snaps[..0] == [];
    } else {
      var y := NotInSource(snaps[1..], others, if snaps[0] in others then i else i - 1);
      x := y + 1;
      assert snaps[..x][1..] == snaps[1..][..y];
    }
  }

  /**
   With unique cluster ids, everything one policy queues goes to one cluster, the best of those that do not violate it,
   from clusters that do, so no record starts where another one ends; and a violating cluster is drained once at most.
   */
  lemma PolicyRecords(t: Trigger, p: Policy, snaps: seq<Snapshot>, answers: nat -> Answer)
    requires UniqueIds(snaps) && p.rule.Some?
    ensures var ms := ApplyPolicy(t, p, snaps, answers).queued;
      var rule := p.rule.value;
      (forall m | m in ms ::
        (exists s | s in snaps :: s.id == m.source && t(rule.trigger, s.cpu, s.ram, s.disk, s.vms)) &&
        (exists x: nat | x < |snaps| :: snaps[x].id == m.dest && Best(t, rule, snaps, x)) &&
        (m.live <==> Contains(rule.action, "live"))) &&
      (forall m, m' | m in ms && m' in ms :: m.dest == m'.dest && m.dest != m'.source) &&
      (forall i, k | 0 <= i < k < |ms| :: ms[i].source != ms[k].source)
  {
    var rule := p.rule.value;
    var violating := Violating(t, rule.trigger, snaps);
    var cands := Candidates(t, rule.trigger, snaps);
    ViolatingExactly(t, rule.trigger, snaps);
    if violating != [] && cands != [] {
      var x := BestPicked(t, rule, snaps);
      var dest := snaps[x];
      RebalanceRecords(answers, 0, violating, dest, IsLive(rule.action));
      ViolatingUnique(t, rule.trigger, snaps);
      OneRecordPerSource(answers, 0, violating, dest, IsLive(rule.action));
      hide Best, Violating, Candidates, RebalanceAll, PickDest;
      var ms := ApplyPolicy(t, p, snaps, answers).queued;
      DestsDiffer(t, rule, snaps, ms, x);
    }
  }

  lemma DestsDiffer(t: Trigger, rule: Rule, snaps: seq<Snapshot>, ms: seq<Migration>, x: nat)
    requires UniqueIds(snaps) && Best(t, rule, snaps, x) && AllTo(ms, snaps[x].id)
    requires forall m | m in ms :: exists s | s in snaps :: m.source == s.id && Fires(t, rule.trigger, s)
    ensures forall m, m' | m in ms && m' in ms :: m.dest == m'.dest && m.dest != m'.source
  {
    forall m, m' | m in ms && m' in ms
      ensures m.dest == m'.dest && m.dest != m'.source
    {
      var s :| s in snaps && m'.source == s.id && Fires(t, rule.trigger, s);
      assert snaps[x].id != s.id;
    }
  }

  /**
   Which of them there are: a violating cluster, the `k`-th, gets a record exactly if some cluster does not violate the
   policy, no rebalance before the `k`-th raised and the `k`-th one queues; the record moves the first active server
   listed to it. The policy raises exactly if one of its rebalances does.
   */
  lemma PolicyRecordsIff(t: Trigger, p: Policy, snaps: seq<Snapshot>, answers: nat -> Answer, i: nat)
    requires UniqueIds(snaps) && p.rule.Some? && i < |snaps| && Fires(t, p.rule.value.trigger, snaps[i])
    ensures var r := ApplyPolicy(t, p, snaps, answers);
      var expr := p.rule.value.trigger;
      var k := |Violating(t, expr, snaps[..i])|;
      var some := exists s | s in snaps :: !Fires(t, expr, s);
      Serves(r.queued, snaps[i].id, answers(k), some && NoneFails(answers, 0, k)) &&
      (r.raised <==> some && !NoneFails(answers, 0, |Violating(t, expr, snaps)|))
  {
    var rule := p.rule.value;
    var violating := Violating(t, rule.trigger, snaps);
    var cands := Candidates(t, rule.trigger, snaps);
    var k := |Violating(t, rule.trigger, snaps[..i])|;
    PartitionByTrigger(t, rule.trigger, snaps);
    ViolatingAt(t, rule.trigger, snaps, i);
    if cands != [] {
      assert cands[0] in cands;
      var dest := PickDest(cands, rule.target);
      ViolatingUnique(t, rule.trigger, snaps);
      RebalancedAt(answers, 0, violating, dest, IsLive(rule.action), k);
      RebalancesRaise(answers, 0, violating, dest, IsLive(rule.action));
      hide RebalanceAll, PickDest, Violating, Candidates, UniqueIds;
    }
  }

  /** What the policies from `i` on queue. */
  function EvaluatedFrom(
    t: Trigger, ps: seq<Policy>, snaps: seq<Snapshot>, answers: nat -> nat -> Answer, i: nat): seq<Migration>
    decreases |ps| - i
  {
    if i >= |ps| then []
    else Output(t, ps[i], snaps, answers(i)) + EvaluatedFrom(t, ps, snaps, answers, i + 1)
  }

  lemma {:induction false} EvaluatedSplit(
    t: Trigger, ps: seq<Policy>, snaps: seq<Snapshot>, answers: nat -> nat -> Answer, i: nat)
    requires i <= |ps|
    ensures Evaluated(t, ps, snaps, answers) ==
            Evaluated(t, ps[..i], snaps, answers) + EvaluatedFrom(t, ps, snaps, answers, i)
    decreases |ps| - i
  {
    if i == |ps| {
      assert ps[..i] == ps;
    } else {
      EvaluatedSplit(t, ps, snaps, answers, i + 1);
      EvaluatedSnoc(t, ps, snaps, answers, i);
      Associative(Evaluated(t, ps[..i], snaps, answers), Output(t, ps[i], snaps, answers(i)),
                  EvaluatedFrom(t, ps, snaps, answers, i + 1));
    }
  }

  lemma Associative(a: seq<Migration>, b: seq<Migration>, c: seq<Migration>)
    ensures a + b + c == a + (b + c)
  {
  }

  lemma EvaluatedSnoc(t: Trigger, ps: seq<Policy>, snaps: seq<Snapshot>, answers: nat -> nat -> Answer, i: nat)
    requires i < |ps|
    ensures Evaluated(t, ps[..i + 1], snaps, answers) ==
            Evaluated(t, ps[..i], snaps, answers) + Output(t, ps[i], snaps, answers(i))
  {
    assert ps[..i + 1][..i] == ps[..i];
  }

  /** An evaluation queues exactly what its enabled policies queue. */
  lemma {:induction false} EnabledOnly(
    t: Trigger, ps: seq<Policy>, snaps: seq<Snapshot>, answers: nat -> nat -> Answer, m: Migration)
    ensures m in Evaluated(t, ps, snaps, answers) <==>
      exists i | 0 <= i < |ps| :: ps[i].enabled && m in ApplyPolicy(t, ps[i], snaps, answers(i)).queued
    decreases |ps|
  {
    if ps != [] {
      EnabledOnly(t, ps[..|ps| - 1], snaps, answers, m);
    }
  }

  lemma SplitAround(t: Trigger, ps: seq<Policy>, snaps: seq<Snapshot>, answers: nat -> nat -> Answer, i: nat)
    requires i < |ps|
    ensures Evaluated(t, ps, snaps, answers) ==
            Evaluated(t, ps[..i], snaps, answers) + Output(t, ps[i], snaps, answers(i)) +
            EvaluatedFrom(t, ps, snaps, answers, i + 1)
  {
    EvaluatedSplit(t, ps, snaps, answers, i);
  }

  lemma {:induction false} SameFrom(
    t: Trigger, ps: seq<Policy>, qs: seq<Policy>, snaps: seq<Snapshot>,
    a: nat -> nat -> Answer, b: nat -> nat -> Answer, i: nat)
    requires |ps| == |qs| && forall k | i <= k < |ps| :: ps[k] == qs[k] && a(k) == b(k)
    ensures EvaluatedFrom(t, ps, snaps, a, i) == EvaluatedFrom(t, qs, snaps, b, i)
    decreases |ps| - i
  {
    if i < |ps| {
      SameFrom(t, ps, qs, snaps, a, b, i + 1);
    }
  }

  lemma {:induction false} SameAnswers(
    t: Trigger, ps: seq<Policy>, snaps: seq<Snapshot>, a: nat -> nat -> Answer, b: nat -> nat -> Answer)
    requires forall k | 0 <= k < |ps| :: a(k) == b(k)
    ensures Evaluated(t, ps, snaps, a) == Evaluated(t, ps, snaps, b)
    decreases |ps|
  {
    if ps != [] {
      SameAnswers(t, ps[..|ps| - 1], snaps, a, b);
    }
  }

  /**
   Isolation: replace one policy by any other and let anything go wrong while it is applied; what the policies
   before it queue, and what those after it queue, stays as it was, and each of them queues what it queues alone.
   */
  lemma PoliciesIsolated(
    t: Trigger, ps: seq<Policy>, snaps: seq<Snapshot>, answers: nat -> nat -> Answer, i: nat,
    q: Policy, other: nat -> nat -> Answer)
    requires i < |ps| && forall k: nat | k != i :: other(k) == answers(k)
    ensures var before, after := Evaluated(t, ps[..i], snaps, answers), EvaluatedFrom(t, ps, snaps, answers, i + 1);
      Evaluated(t, ps, snaps, answers) == before + Output(t, ps[i], snaps, answers(i)) + after &&
      Evaluated(t, ps[i := q], snaps, other) == before + Output(t, q, snaps, other(i)) + after
  {
    var qs := ps[i := q];
    SplitAround(t, ps, snaps, answers, i);
    SplitAround(t, qs, snaps, other, i);
    assert qs[..i] == ps[..i];
    SameAnswers(t, ps[..i], snaps, answers, other);
    SameFrom(t, ps, qs, snaps, answers, other, i + 1);
  }
}
