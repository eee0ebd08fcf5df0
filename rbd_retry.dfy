/**
 * The bounded retry destroyer (RBDDriver._cleanup_vol and _destroy_volume),
 * stated over the stream of outcomes that successive remove attempts report:
 * `o(k)` is what the (k+1)-th call of rbd.RBD().remove returns.
 *
 * The looping call runs _cleanup_vol until it raises LoopingCallDone or any
 * other exception. When the budget runs out the timer reports a time-out and
 * _destroy_volume makes one extra attempt, whose busy outcome is swallowed.
 */
module RbdRetry {
  import opened Wrappers
  import opened Ceph

  /** retryctx['retries'] starts at ten. */
  const Budget: int := 10

  /** The two outcomes _cleanup_vol catches and retries. */
  predicate Retryable(e: NativeError) {
    e == ImageBusy || e == ImageHasSnapshots
  }

  predicate IsRetryable(r: Outcome<()>) {
    r.Err? && Retryable(r.error)
  }

  /** How one call of _cleanup_vol ends. */
  datatype Signal =
    | Continue(retries: int)           // returned normally; the timer calls again
    | Done(timedOut: bool, retries: int) // raised LoopingCallDone(retvalue=timedOut)
    | Raised(error: NativeError)       // any other error escapes

  /** One call of _cleanup_vol, given what its remove attempt reported. */
  function CleanupStep(removal: Outcome<()>, retries: int): (s: Signal)
    ensures removal.Ok? ==> s == Done(false, retries)
    ensures IsRetryable(removal) ==>
              s == if retries - 1 <= 0 then Done(true, retries - 1) else Continue(retries - 1)
    ensures removal.Err? && !Retryable(removal.error) ==> s == Raised(removal.error)
  {
    match removal
    case Ok(_) => Done(false, retries)
    case Err(e) =>
      if Retryable(e) then
        if retries - 1 <= 0 then Done(true, retries - 1) else Continue(retries - 1)
      else Raised(e)
  }

  /** How the timed loop ends, with the number of attempts made since the start. */
  datatype LoopEnd =
    | Finished(attempts: nat)
    | TimedOut(attempts: nat, retries: int)
    | Failed(attempts: nat, error: NativeError)

  /** The looping call from attempt `k` on, with `retries` of the budget left. */
  function TimerRun(o: nat -> Outcome<()>, k: nat, retries: int): LoopEnd
    requires retries > 0
    decreases retries
  {
    match CleanupStep(o(k), retries)
    case Done(timedOut, r) => if timedOut then TimedOut(k + 1, r) else Finished(k + 1)
    case Continue(r) => TimerRun(o, k + 1, r)
    case Raised(e) => Failed(k + 1, e)
  }

  datatype Destroyed = Destroyed(attempts: nat, result: Outcome<()>)

  /** _destroy_volume: the timed loop, then one extra attempt if it timed out. */
  function DestroyRun(o: nat -> Outcome<()>): Destroyed {
    match TimerRun(o, 0, Budget)
    case Finished(n) => Destroyed(n, Ok(()))
    case Failed(n, e) => Destroyed(n, Err(e))
    case TimedOut(n, r) =>
      match CleanupStep(o(n), r)
      case Raised(e) => Destroyed(n + 1, Err(e))
      case _ => Destroyed(n + 1, Ok(()))
  }

  /** Attempts `lo` up to (not including) `hi` all report busy or has-snapshots. */
  ghost predicate BusyBetween(o: nat -> Outcome<()>, lo: nat, hi: nat) {
    forall i: nat :: lo <= i < hi ==> IsRetryable(o(i))
  }

  /**
   * Every run of the timer from attempt `k` stops within `retries` attempts:
   * on the first success, on the first other error, or after `retries` busy
   * attempts with the budget down to zero; all attempts before the last were busy.
   */
  lemma {:induction false} TimerRunShape(o: nat -> Outcome<()>, k: nat, retries: int)
    requires retries > 0
    ensures var e := TimerRun(o, k, retries);
      match e
      case Finished(n) => k < n <= k + retries && o(n - 1).Ok? && BusyBetween(o, k, n - 1)
      case Failed(n, err) =>
        k < n <= k + retries && o(n - 1) == Err(err) && !Retryable(err) && BusyBetween(o, k, n - 1)
      case TimedOut(n, r) => n == k + retries && r == 0 && BusyBetween(o, k, n)
    decreases retries
  {
    var s := CleanupStep(o(k), retries);
    if s.Continue? {
      TimerRunShape(o, k + 1, retries - 1);
    }
  }

  /** Busy attempts from `k` to `j` only spend the budget. */
  lemma {:induction false} TimerRunSkipsBusy(o: nat -> Outcome<()>, k: nat, j: nat, retries: int)
    requires k <= j && j - k < retries
    requires BusyBetween(o, k, j)
    ensures TimerRun(o, k, retries) == TimerRun(o, j, retries - (j - k))
    decreases j - k
  {
    if k < j {
      assert IsRetryable(o(k));
      TimerRunSkipsBusy(o, k + 1, j, retries - 1);
    }
  }

  /** Success at attempt n <= 10 after busy attempts: exactly n attempts, no extra one. */
  lemma DestroySucceedsAt(o: nat -> Outcome<()>, n: nat)
    requires 1 <= n <= 10
    requires BusyBetween(o, 0, n - 1) && o(n - 1).Ok?
    ensures DestroyRun(o) == Destroyed(n, Ok(()))
  {
    TimerRunSkipsBusy(o, 0, n - 1, Budget);
  }

  /** Any other error at attempt n <= 10 propagates at once, without a retry. */
  lemma DestroyFailsAt(o: nat -> Outcome<()>, n: nat, e: NativeError)
    requires 1 <= n <= 10
    requires BusyBetween(o, 0, n - 1) && o(n - 1) == Err(e) && !Retryable(e)
    ensures DestroyRun(o) == Destroyed(n, Err(e))
  {
    TimerRunSkipsBusy(o, 0, n - 1, Budget);
  }

  /**
   * Ten busy attempts exhaust the budget; exactly one more attempt follows, for
   * eleven in all. Only an error other than busy or has-snapshots on that
   * attempt is raised; a busy outcome there is swallowed.
   */
  lemma DestroyExhausted(o: nat -> Outcome<()>)
    requires BusyBetween(o, 0, 10)
    ensures DestroyRun(o).attempts == 11
    ensures DestroyRun(o).result == if o(10).Err? && !Retryable(o(10).error) then Err(o(10).error) else Ok(())
  {
    TimerRunShape(o, 0, Budget);
  }

  /**
   * The destroyer as a whole: between one and eleven attempts; an error is
   * raised only if the last attempt reported one that is neither busy nor
   * has-snapshots; eleven attempts are made only after ten busy ones.
   */
  lemma DestroyBounds(o: nat -> Outcome<()>)
    ensures var d := DestroyRun(o);
      && 1 <= d.attempts <= 11
      && (d.result.Err? ==> o(d.attempts - 1) == d.result && !Retryable(d.result.error))
      && (d.attempts == 11 <==> BusyBetween(o, 0, 10))
      && (d.attempts < 11 ==> BusyBetween(o, 0, d.attempts - 1) && !IsRetryable(o(d.attempts - 1)))
  {
    TimerRunShape(o, 0, Budget);
  }
}
