/** How long the polling loops run and when exactly they succeed. */
module Polling {
  import opened Clusters

  /** The reading at tick `t` is the first one a wait that began at `from` can end with, and no earlier one raised. */
  predicate FirstGood(e: Env, image: string, limit: int, from: nat, t: nat) {
    from <= t && !e.raises(t) && Reading(e, t, image) <= limit &&
    forall u | from <= u < t :: !e.raises(u) && Reading(e, u, image) > limit
  }

  /**
   A wait allotted `n` polls succeeds exactly when one of them reads a lag within the limit before any reading
   raises, and ends there; a wait in which no reading raises fails only with all its polls taken.
   */
  lemma {:induction false} WaitSucceedsIff(e: Env, image: string, limit: int, n: nat, w: World)
    ensures var r := PollSync(e, image, limit, n, w);
      var from, end := |w.trace|, |r.w.trace|;
      (r.ok <==> exists t | from <= t < from + n :: FirstGood(e, image, limit, from, t)) &&
      (r.ok ==> from < end <= from + n && FirstGood(e, image, limit, from, end - 1)) &&
      (!r.ok ==> end == from + n || (from < end < from + n && e.raises(end - 1)))
    decreases n
  {
    hide Reading;
    if n > 0 {
      var from := |w.trace|;
      var w1 := After(e, w, MirrorStatus, image);
      WaitSucceedsIff(e, image, limit, n - 1, w1);
      if FirstGood(e, image, limit, from, from) {
      } else if !e.raises(from) {
        forall t | from + 1 <= t
          ensures FirstGood(e, image, limit, from, t) <==> FirstGood(e, image, limit, from + 1, t)
        {
        }
        var rest := PollSync(e, image, limit, n - 1, w1);
        assert PollSync(e, image, limit, n, w) == rest && |w1.trace| == from + 1;
        if rest.ok {
          assert FirstGood(e, image, limit, from, |rest.w.trace| - 1);
        } else {
          assert forall t | from <= t < from + n :: !FirstGood(e, image, limit, from, t);
        }
      } else {
        assert forall t | from <= t :: !FirstGood(e, image, limit, from, t);
      }
    }
  }

  /** No call made at a tick in `[from, to)` raises. */
  predicate Readable(e: Env, from: nat, to: nat) {
    forall t | from <= t < to :: !e.raises(t)
  }

  predicate AllAbove(e: Env, image: string, limit: int, from: nat, to: nat) {
    forall t | from <= t < to :: Reading(e, t, image) > limit
  }

  /** While readings do not raise, a wait fails exactly when every one of its allotted samples is above the limit. */
  lemma {:induction false} WaitFailsIff(e: Env, image: string, limit: int, n: nat, w: World)
    requires Readable(e, |w.trace|, |w.trace| + n)
    ensures !PollSync(e, image, limit, n, w).ok <==> AllAbove(e, image, limit, |w.trace|, |w.trace| + n)
    decreases n
  {
    hide Reading;
    if n > 0 && Reading(e, |w.trace|, image) > limit {
      WaitFailsIff(e, image, limit, n - 1, After(e, w, MirrorStatus, image));
    }
  }

  /**
   A lag that falls by at least `rate` per poll, and starts no further out than the polls can cover, is always waited
   out.
   */
  lemma FallingLagSyncs(e: Env, image: string, limit: int, rate: nat, n: nat, w: World)
    requires n > 0 && Readable(e, |w.trace|, |w.trace| + n)
    requires forall t | |w.trace| < t < |w.trace| + n :: Reading(e, t, image) <= Reading(e, t - 1, image) - rate
    requires Reading(e, |w.trace|, image) <= limit + rate * (n - 1)
    ensures PollSync(e, image, limit, n, w).ok
  {
    hide Reading, PollSync;
    WaitFailsIff(e, image, limit, n, w);
    var from := |w.trace|;
    var t := from;
    var last := from + n - 1;
    while t < last
      invariant from <= t <= last && Reading(e, t, image) <= limit + rate * (last - t)
    {
      assert rate * (last - t) - rate == rate * (last - (t + 1));
      t := t + 1;
    }
  }

  /** The status at tick `t` is the target, and no earlier one since `from` raised, was an error or was the target. */
  predicate FirstReached(e: Env, target: VmStatus, from: nat, t: nat) {
    from <= t && !e.raises(t) && e.status(t) == target &&
    forall u | from <= u < t :: !e.raises(u) && e.status(u) != target && !e.status(u).Errored?
  }

  /** If the first reading is not the one, a later one is exactly if a wait that began one later would end with it. */
  lemma ReachedLater(e: Env, target: VmStatus, from: nat)
    requires !FirstReached(e, target, from, from)
    ensures forall t | from <= t ::
      FirstReached(e, target, from, t) <==>
        !e.raises(from) && !e.status(from).Errored? && FirstReached(e, target, from + 1, t)
  {
    forall t | from <= t
      ensures FirstReached(e, target, from, t) <==>
        !e.raises(from) && !e.status(from).Errored? && FirstReached(e, target, from + 1, t)
    {
    }
  }

  /**
   The wait for a VM status succeeds exactly when the target is read within the allotment before anything ends the
   wait.
   */
  lemma {:induction false} VmWaitSucceedsIff(e: Env, id: string, target: VmStatus, n: nat, w: World)
    ensures var r := PollVm(e, id, target, n, w);
      var from, end := |w.trace|, |r.w.trace|;
      (r.ok <==> exists t | from <= t < from + n :: FirstReached(e, target, from, t)) &&
      (r.ok ==> from < end <= from + n && FirstReached(e, target, from, end - 1)) &&
      (!r.ok ==> end == from + n || (from < end < from + n && (e.raises(end - 1) || e.status(end - 1).Errored?)))
    decreases n
  {
    if n > 0 {
      var from := |w.trace|;
      var w1 := After(e, w, GetServer, id);
      VmWaitSucceedsIff(e, id, target, n - 1, w1);
      if !FirstReached(e, target, from, from) {
        ReachedLater(e, target, from);
        hide FirstReached;
        if !e.raises(from) && !e.status(from).Errored? {
          var rest := PollVm(e, id, target, n - 1, w1);
          assert PollVm(e, id, target, n, w) == rest && |w1.trace| == from + 1;
          assert rest.ok ==> FirstReached(e, target, from, |rest.w.trace| - 1);
        }
      }
    }
  }
}
