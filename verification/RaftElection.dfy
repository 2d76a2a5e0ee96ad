/**
 The election object of one node. Each method is what runs between two awaits; its contract names the system step it
 is.
 */
module Raft {
  import opened Election
  import opened Wrappers

  /** The etcd server as one client sees it. */
  class Etcd {
    var key: Option<Key>
    var live: set<nat>
    var next: nat

    constructor ()
      ensures key == None && live == {} && next == 0
    {
      key := None;
      live := {};
      next := 0;
    }

    method CreateLease() returns (lease: nat)
      modifies this`live, this`next
      ensures lease == old(next) && next == old(next) + 1 && live == old(live) + {lease}
    {
      lease := next;
      live := live + {lease};
      next := next + 1;
    }

    /** Put the key only if it does not exist; putting it on a dead lease makes the transaction fail. */
    method CompareAndSwap(holder: string, lease: nat) returns (raised: bool, success: bool)
      modifies this`key
      ensures raised <==> old(key).None? && lease !in live
      ensures success <==> !raised && old(key).None?
      ensures key == if success then Some(Key(holder, lease)) else old(key)
    {
      raised := key.None? && lease !in live;
      success := !raised && key.None?;
      if success {
        key := Some(Key(holder, lease));
      }
    }

    method Revoke(lease: nat)
      modifies this`key, this`live
      ensures live == old(live) - {lease}
      ensures key == if old(key).Some? && old(key).value.lease == lease then None else old(key)
    {
      live := live - {lease};
      if key.Some? && key.value.lease == lease {
        key := None;
      }
    }
  }

  class RaftElection {
    const etcd: Etcd
    const id: string
    var running: bool
    var master: bool
    var masterId: string
    var term: nat
    var lease: Option<nat>
    var flight: Flight           // the answer of the executor thread, while an attempt is in progress
    ghost var calls: seq<Callback>
    ghost var attempts: nat

    constructor (etcd: Etcd, id: string)
      ensures this.etcd == etcd && View() == NewNode(id)
    {
      this.etcd := etcd;
      this.id := id;
      running := true;
      master := false;
      masterId := "";
      term := 0;
      lease := None;
      flight := Idle;
      calls := [];
      attempts := 0;
    }

    ghost function View(): Node
      reads this
    {
      Node(id, running, master, masterId, term, lease, flight, calls, attempts)
    }

    /** This object and its etcd are node `n` of system `s` and that system's etcd. */
    ghost predicate Shows(s: Sys, n: nat)
      reads this, etcd
    {
      n < |s.nodes| && s.nodes[n] == View() && s.key == etcd.key && s.live == etcd.live && |s.owners| == etcd.next
    }

    method OnBecomeMaster(won: nat)
      requires lease == Some(won)
      modifies this`master, this`masterId, this`term, this`calls
      ensures View() == BecomeMaster(old(View()), won)
    {
      var wasMaster := master;
      master := true;
      masterId := id;
      term := term + 1;
      if !wasMaster {
        calls := calls + [Become];
      }
    }

    method OnLoseMaster()
      modifies this`master, this`lease, this`calls
      ensures View() == LoseMaster(old(View()))
    {
      master := false;
      lease := None;
      calls := calls + [Lose];
    }

    /** Decides between refreshing and acquiring; an acquisition is handed to a thread. */
    method StartAttempt(ghost s: Sys, ghost n: nat) returns (refresh: bool)
      requires Shows(s, n) && running && flight.Idle?
      modifies this`flight
      ensures refresh <==> Refreshes(old(View()))
      ensures Shows(if refresh then s else Apply(s, Begin(n)), n)
    {
      refresh := master && lease.Some?;
      if !refresh {
        flight := Asking;
      }
    }

    method CreateLease(ghost s: Sys, ghost n: nat)
      requires Shows(s, n) && Enabled(false, s, Grant(n))
      modifies this`flight, etcd
      ensures Shows(Apply(s, Grant(n)), n)
    {
      var granted := etcd.CreateLease();
      flight := Granted(granted);
    }

    /** The lease may exist although creating it raised. */
    method CreateLeaseFails(applied: bool, ghost s: Sys, ghost n: nat)
      requires Shows(s, n) && Enabled(false, s, GrantFails(n, applied))
      modifies this`flight, etcd
      ensures Shows(Apply(s, GrantFails(n, applied)), n)
    {
      if applied {
        var granted := etcd.CreateLease();
      }
      flight := Raised;
    }

    method CompareAndSwap(ghost s: Sys, ghost n: nat)
      requires Shows(s, n) && Enabled(false, s, Cas(n))
      modifies this`flight, etcd
      ensures Shows(Apply(s, Cas(n)), n)
    {
      var granted := flight.lease;
      var raised, success := etcd.CompareAndSwap(id, granted);
      flight := if raised then Raised else if success then Won(granted) else Lost;
    }

    /** Having lost, the attempt reads who the master is, in a thread again. */
    method ReadMaster(ok: bool, ghost s: Sys, ghost n: nat)
      requires Shows(s, n) && Enabled(false, s, Look(n, ok))
      modifies this`flight
      ensures Shows(Apply(s, Look(n, ok)), n)
    {
      flight := if ok then Seen(if etcd.key.Some? then etcd.key.value.holder else "") else Raised;
    }

    /**
     The rest of the attempt once its answer is there. A raising become callback is swallowed, a raising lose
     callback reaches the loop; neither changes what is recorded.
     */
    method CompleteAttempt(callbackRaises: bool, ghost s: Sys, ghost n: nat) returns (escaped: bool)
      requires Shows(s, n) && Enabled(false, s, Record(n))
      modifies this
      ensures Shows(Apply(s, Record(n)), n)
      ensures escaped <==> callbackRaises && old(flight) == Refreshed(false)
    {
      escaped := false;
      attempts := attempts + 1;
      var answer := flight;
      flight := Idle;
      match answer {
        case Won(won) =>
          lease := Some(won);
          OnBecomeMaster(won);
        case Seen(holder) =>
          if holder != "" && masterId != holder {
            masterId := holder;
          }
        case Refreshed(ok) =>
          if !ok {
            OnLoseMaster();
            escaped := callbackRaises;
          }
        case Idle =>
        case Asking =>
        case Granted(_) =>
        case Lost =>
        case Raised =>
      }
    }

    /** Without a lease there is nothing to revoke, and a failing call is ignored. */
    method RevokeLease(reachable: bool, ghost s: Sys, ghost n: nat)
      requires Shows(s, n)
      modifies etcd
      ensures Shows(RevokeOwn(s, n, reachable), n)
      ensures if reachable && lease.Some? then lease.value !in etcd.live else etcd.live == old(etcd.live)
    {
      if lease.Some? && reachable {
        etcd.Revoke(lease.value);
      }
    }

    /** Answers true whenever this node believes to be the master, also if it had no lease left to revoke. */
    method ForceElect(reachable: bool, ghost s: Sys, ghost n: nat) returns (ok: bool)
      requires Shows(s, n)
      modifies etcd
      ensures ok <==> masterId == id
      ensures Shows(Apply(s, Step.ForceElect(n, reachable)), n)
    {
      if masterId != id {
        return false;
      }
      RevokeLease(reachable, s, n);
      ok := true;
    }

    method Stop(reachable: bool, ghost s: Sys, ghost n: nat)
      requires Shows(s, n)
      modifies this`running, this`flight, etcd
      ensures Shows(Apply(s, Step.Stop(n, reachable)), n)
      ensures if reachable && lease.Some? then lease.value !in etcd.live else etcd.live == old(etcd.live)
    {
      running := false;
      flight := Idle;
      RevokeLease(reachable, Cancel(s, n), n);
    }
  }
}
