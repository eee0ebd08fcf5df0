/**
 * The retry destroyer run against the cluster model: what successive remove
 * attempts on one volume report, the volume each attempt leaves behind, and
 * the effect of destroying every volume of an instance in listing order
 * (RBDDriver._destroy_volume and cleanup_volumes).
 */
module RbdCleanup {
  import opened Wrappers
  import opened Ceph
  import opened RbdRetry
  import opened RbdLocation

  /**
   * What attempt `k` (counting from 0) of removing a volume that started as
   * `v` reports, the attempts before it having all reported busy. A refused
   * remove and a missing volume never change; snapshots keep the volume in place;
   * each busy attempt costs the volume one watcher.
   */
  function AttemptOutcome(v: Option<Volume>, refused: bool, k: nat): Outcome<()> {
    if refused then Err(PermissionError)
    else match v
      case None => Err(ImageNotFound)
      case Some(x) =>
        if x.snaps != [] then Err(ImageHasSnapshots)
        else if k < x.watchers then Err(ImageBusy)
        else Ok(())
  }

  function Outcomes(v: Option<Volume>, refused: bool): nat -> Outcome<()> {
    (k: nat) => AttemptOutcome(v, refused, k)
  }

  /** The volume after `n` attempts; None once it has been removed. */
  function AfterAttempts(v: Option<Volume>, refused: bool, n: nat): Option<Volume> {
    if refused then v
    else match v
      case None => None
      case Some(x) =>
        if x.snaps != [] then v
        else if n <= x.watchers then Some(x.(watchers := x.watchers - n))
        else None
  }

  /** The pools with volume `pool`/`name` set to `v`, or deleted when `v` is None. */
  function Put(pools: map<string, Pool>, pool: string, name: string, v: Option<Volume>): (r: map<string, Pool>)
    requires v.Some? ==> Lookup(pools, pool, name).Some?
    ensures r.Keys == pools.Keys
    ensures AllWellFormed(pools) ==> AllWellFormed(r)
    ensures forall p, n :: Lookup(r, p, n) == if p == pool && n == name then v else Lookup(pools, p, n)
  {
    if v.Some? then Store(pools, pool, name, v.value)
    else if Lookup(pools, pool, name).Some? then Delete(pools, pool, name)
    else pools
  }

  lemma PutSame(pools: map<string, Pool>, pool: string, name: string)
    ensures Put(pools, pool, name, Lookup(pools, pool, name)) == pools
  {
    if Lookup(pools, pool, name).Some? {
      StoreSame(pools, pool, name);
    }
  }

  /**
   * One remove attempt on the cluster model: from the state the first `n`
   * attempts left, attempt `n` reports AttemptOutcome and leaves the state of
   * `n + 1` attempts, as long as attempt `n - 1` was a busy one.
   */
  lemma AttemptStep(pools: map<string, Pool>, refused: bool, pool: string, name: string, n: nat)
    requires n == 0 || IsRetryable(AttemptOutcome(Lookup(pools, pool, name), refused, n - 1))
    ensures var v0 := Lookup(pools, pool, name);
      RemoveStep(Put(pools, pool, name, AfterAttempts(v0, refused, n)), refused, pool, name)
        == (AttemptOutcome(v0, refused, n), Put(pools, pool, name, AfterAttempts(v0, refused, n + 1)))
  {
    var v0 := Lookup(pools, pool, name);
    var d := refused;
    if d || v0.None? {
      PutSame(pools, pool, name);
    } else {
      var x := v0.value;
      if x.snaps != [] {
        PutSame(pools, pool, name);
      } else {
        var cur := x.(watchers := x.watchers - n);
        assert AfterAttempts(v0, d, n) == Some(cur);
        var m := Store(pools, pool, name, cur);
        assert Lookup(m, pool, name) == Some(cur);
        if cur.watchers > 0 {
          StoreStore(pools, pool, name, cur, cur.(watchers := cur.watchers - 1));
        } else {
          DeleteStore(pools, pool, name, cur);
        }
      }
    }
  }

  /** The first `n` attempts on a volume that started as `v` all report busy or has-snapshots. */
  ghost predicate BusyBefore(v: Option<Volume>, refused: bool, n: nat) {
    forall k: nat :: k < n ==> IsRetryable(AttemptOutcome(v, refused, k))
  }

  /** A round of the looping call that asks for another: attempt `k` was busy and budget remains. */
  lemma LoopContinues(v: Option<Volume>, refused: bool, k: nat, s: Signal)
    requires k < 10 && BusyBefore(v, refused, k)
    requires s == CleanupStep(AttemptOutcome(v, refused, k), Budget - k) && s.Continue?
    ensures k < 9 && s.retries == Budget - (k + 1)
    ensures IsRetryable(AttemptOutcome(v, refused, k)) && BusyBefore(v, refused, k + 1)
  {
  }

  /**
   * How the looping call of _destroy_volume ends, seen from its last signal:
   * after `n` attempts, all but the last busy, a raised error or a success
   * ends the destroyer there; a time-out happens only after ten attempts and
   * leads to the extra attempt, whose raised error alone is reported.
   */
  lemma LoopExit(v: Option<Volume>, refused: bool, n: nat, s: Signal)
    requires 1 <= n <= 10 && BusyBefore(v, refused, n - 1)
    requires s == CleanupStep(AttemptOutcome(v, refused, n - 1), Budget - (n - 1)) && !s.Continue?
    ensures var d := DestroyRun(Outcomes(v, refused));
      && (s.Raised? ==> d == Destroyed(n, Err(s.error)))
      && (s.Done? && !s.timedOut ==> d == Destroyed(n, Ok(())))
      && (s.Done? && s.timedOut ==>
            var extra := CleanupStep(AttemptOutcome(v, refused, 10), 0);
            && n == 10 && s.retries == 0 && IsRetryable(AttemptOutcome(v, refused, n - 1))
            && d == Destroyed(11, if extra.Raised? then Err(extra.error) else Ok(())))
  {
    var o := Outcomes(v, refused);
    forall i: nat | i < n - 1 ensures IsRetryable(o(i)) {
      assert o(i) == AttemptOutcome(v, refused, i);
    }
    assert o(n - 1) == AttemptOutcome(v, refused, n - 1);
    match s
    case Raised(e) =>
      DestroyFailsAt(o, n, e);
    case Done(timedOut, _) =>
      if timedOut {
        assert o(10) == AttemptOutcome(v, refused, 10);
        DestroyExhausted(o);
      } else {
        DestroySucceedsAt(o, n);
      }
  }

  // ------------------------------------------- one volume, start to finish

  /** The number of remove attempts the destroyer makes on an existing volume. */
  function DestroyAttempts(v: Volume): nat {
    if v.snaps != [] || v.watchers >= 10 then 11 else v.watchers + 1
  }

  /** The volume the destroyer leaves: gone unless it has snapshots or more than ten watchers. */
  function DestroyEffect(v: Volume): Option<Volume> {
    if v.snaps != [] then Some(v)
    else if v.watchers <= 10 then None
    else Some(v.(watchers := v.watchers - 11))
  }

  /**
   * On an existing volume the client may remove, the destroyer never raises: a
   * volume busy for fewer than ten attempts is removed on the first attempt
   * that finds it free; otherwise eleven attempts are made and a final busy or
   * has-snapshots outcome is swallowed.
   */
  lemma DestroyExisting(v: Volume)
    ensures DestroyRun(Outcomes(Some(v), false)) == Destroyed(DestroyAttempts(v), Ok(()))
    ensures AfterAttempts(Some(v), false, DestroyAttempts(v)) == DestroyEffect(v)
  {
    var o := Outcomes(Some(v), false);
    if v.snaps != [] || v.watchers >= 10 {
      forall i: nat | 0 <= i < 10 ensures IsRetryable(o(i)) {
        assert o(i) == AttemptOutcome(Some(v), false, i);
      }
      assert o(10) == AttemptOutcome(Some(v), false, 10);
      DestroyExhausted(o);
    } else {
      forall i: nat | 0 <= i < v.watchers ensures IsRetryable(o(i)) {
        assert o(i) == AttemptOutcome(Some(v), false, i);
      }
      assert o(v.watchers) == AttemptOutcome(Some(v), false, v.watchers);
      DestroySucceedsAt(o, v.watchers + 1);
    }
  }

  /** A refused remove or a missing volume ends the destroyer after one attempt, with that error. */
  lemma DestroyRefused(v: Option<Volume>, refused: bool)
    requires refused || v.None?
    ensures DestroyRun(Outcomes(v, refused)) ==
              Destroyed(1, Err(if refused then PermissionError else ImageNotFound))
    ensures AfterAttempts(v, refused, 1) == v
  {
    var o := Outcomes(v, refused);
    assert o(0) == AttemptOutcome(v, refused, 0);
    DestroyFailsAt(o, 1, if refused then PermissionError else ImageNotFound);
  }

  // ------------------------------------------------- an instance's volumes

  /** The names cleanup_volumes destroys: those starting with the instance uuid, in listing order. */
  function Owned(uuid: string, names: seq<string>): (r: seq<string>)
    ensures forall x :: x in r <==> x in names && HasPrefix(x, uuid)
    ensures |r| <= |names|
  {
    if names == [] then []
    else if HasPrefix(names[0], uuid) then [names[0]] + Owned(uuid, names[1..])
    else Owned(uuid, names[1..])
  }

  /**
   * Where the loop of cleanup_volumes stops: the position of the first of
   * `names` whose removal the client may not make, |names| when there is none.
   */
  function FirstRefused(denied: set<string>, undeletable: set<(string, string)>, pool: string, names: seq<string>)
    : (k: nat)
    ensures k <= |names|
    ensures forall j :: 0 <= j < k ==> !RemoveRefused(denied, undeletable, pool, names[j])
    ensures k < |names| ==> RemoveRefused(denied, undeletable, pool, names[k])
  {
    if names == [] then 0
    else if RemoveRefused(denied, undeletable, pool, names[0]) then 0
    else 1 + FirstRefused(denied, undeletable, pool, names[1..])
  }

  lemma {:induction false} OwnedDistinct(uuid: string, names: seq<string>)
    requires Distinct(names)
    ensures Distinct(Owned(uuid, names))
  {
    if names != [] {
      OwnedDistinct(uuid, names[1..]);
      var t := Owned(uuid, names[1..]);
      if HasPrefix(names[0], uuid) {
        assert names[0] !in names[1..];
        var r := [names[0]] + t;
        forall i, j | 0 <= i < j < |r| ensures r[i] != r[j] {
          if i == 0 { assert r[j] == t[j - 1]; assert t[j - 1] in t; }
        }
      }
    }
  }

  /** Owned keeps the listing order: filtering a concatenation filters each part. */
  lemma {:induction false} OwnedAppend(uuid: string, a: seq<string>, b: seq<string>)
    ensures Owned(uuid, a + b) == Owned(uuid, a) + Owned(uuid, b)
  {
    if a != [] {
      assert (a + b)[1..] == a[1..] + b;
      OwnedAppend(uuid, a[1..], b);
    } else {
      assert a + b == b;
    }
  }

  /** The pools after the destroyer has run on `pool`/`name`. */
  function DestroyStep(pools: map<string, Pool>, pool: string, name: string): (r: map<string, Pool>)
    ensures r.Keys == pools.Keys
    ensures AllWellFormed(pools) ==> AllWellFormed(r)
    ensures forall p, n :: Lookup(r, p, n) ==
              if p == pool && n == name && Lookup(pools, p, n).Some?
              then DestroyEffect(Lookup(pools, p, n).value) else Lookup(pools, p, n)
  {
    match Lookup(pools, pool, name)
    case None => pools
    case Some(v) => Put(pools, pool, name, DestroyEffect(v))
  }

  /** The pools after the destroyer has run on each of `names`, in order. */
  function DestroyAll(pools: map<string, Pool>, pool: string, names: seq<string>): (r: map<string, Pool>)
    ensures r.Keys == pools.Keys
    ensures AllWellFormed(pools) ==> AllWellFormed(r)
    decreases |names|
  {
    if names == [] then pools
    else DestroyStep(DestroyAll(pools, pool, names[..|names| - 1]), pool, names[|names| - 1])
  }

  function AttemptsOf(v: Option<Volume>): nat {
    match v
    case None => 1
    case Some(x) => DestroyAttempts(x)
  }

  function Repeat(c: Call, n: nat): (r: seq<Call>)
    ensures |r| == n && forall i :: 0 <= i < n ==> r[i] == c
  {
    if n == 0 then [] else Repeat(c, n - 1) + [c]
  }

  /** One more call logged after `n` repetitions makes `n + 1`. */
  lemma RepeatSnoc(log: seq<Call>, c: Call, n: nat)
    ensures log + Repeat(c, n) + [c] == log + Repeat(c, n + 1)
    ensures log + [c] == log + Repeat(c, 1)
  {
    assert Repeat(c, 1) == [c];
  }

  /** The remove calls the destroyer makes on each of `names`, in order. */
  function DestroyAllCalls(pools: map<string, Pool>, pool: string, names: seq<string>): seq<Call>
    decreases |names|
  {
    if names == [] then []
    else
      var last := names[|names| - 1];
      DestroyAllCalls(pools, pool, names[..|names| - 1])
        + Repeat(Call.Remove(pool, last), AttemptsOf(Lookup(pools, pool, last)))
  }

  /**
   * Destroying a list of distinct names touches those volumes only: each one
   * ends as DestroyEffect leaves it, every other volume of every pool is as it was.
   */
  lemma {:induction false} DestroyAllEffect(pools: map<string, Pool>, pool: string, names: seq<string>)
    requires Distinct(names)
    ensures forall p, n :: Lookup(DestroyAll(pools, pool, names), p, n) ==
              if p == pool && n in names && Lookup(pools, p, n).Some?
              then DestroyEffect(Lookup(pools, p, n).value) else Lookup(pools, p, n)
    decreases |names|
  {
    if names != [] {
      var init := names[..|names| - 1];
      var last := names[|names| - 1];
      assert names == init + [last];
      DistinctSplit(init, last);
      DestroyAllEffect(pools, pool, init);
    }
  }

  lemma DistinctSplit(init: seq<string>, last: string)
    requires Distinct(init + [last])
    ensures Distinct(init) && last !in init
  {
    var names := init + [last];
    forall i, j | 0 <= i < j < |init| ensures init[i] != init[j] {
      assert names[i] == init[i] && names[j] == init[j];
    }
    forall i | 0 <= i < |init| ensures init[i] != last {
      assert names[i] == init[i] && names[|init|] == last;
    }
  }

  /**
   * Where cleanup_volumes stands when it stops before owned[k]: the owned
   * volumes before it are as DestroyEffect leaves them, while owned[k], every
   * later owned volume and every other volume are as they were.
   */
  lemma CleanupPrefixEffect(pools: map<string, Pool>, pool: string, owned: seq<string>, k: nat)
    requires Distinct(owned) && k <= |owned|
    ensures forall j :: k <= j < |owned| ==>
              Lookup(DestroyAll(pools, pool, owned[..k]), pool, owned[j]) == Lookup(pools, pool, owned[j])
    ensures forall j :: 0 <= j < k && Lookup(pools, pool, owned[j]).Some? ==>
              Lookup(DestroyAll(pools, pool, owned[..k]), pool, owned[j]) == DestroyEffect(Lookup(pools, pool, owned[j]).value)
    ensures forall p, n :: (p != pool || n !in owned) ==>
              Lookup(DestroyAll(pools, pool, owned[..k]), p, n) == Lookup(pools, p, n)
  {
    var pre := owned[..k];
    forall i, j | 0 <= i < j < |pre| ensures pre[i] != pre[j] {
      assert pre[i] == owned[i] && pre[j] == owned[j];
    }
    DestroyAllEffect(pools, pool, pre);
    forall j | k <= j < |owned| ensures owned[j] !in pre {
      forall i | 0 <= i < k ensures pre[i] != owned[j] {
        assert pre[i] == owned[i];
      }
    }
    forall j | 0 <= j < k ensures owned[j] in pre {
      assert pre[j] == owned[j];
    }
    forall n | n in pre ensures n in owned {
      var i :| 0 <= i < |pre| && pre[i] == n;
      assert owned[i] == n;
    }
  }

  /** A name the destroyer has not been run on keeps its volume. */
  lemma {:induction false} DestroyAllUntouched(pools: map<string, Pool>, pool: string, names: seq<string>, name: string)
    requires name !in names
    ensures Lookup(DestroyAll(pools, pool, names), pool, name) == Lookup(pools, pool, name)
    decreases |names|
  {
    if names != [] {
      var init := names[..|names| - 1];
      assert forall x :: x in init ==> x in names;
      DestroyAllUntouched(pools, pool, init, name);
    }
  }

  /** Destroying the first `i + 1` names is destroying the first `i`, then names[i]. */
  lemma DestroyAllSnoc(pools: map<string, Pool>, pool: string, names: seq<string>, i: nat)
    requires i < |names|
    ensures DestroyAll(pools, pool, names[..i + 1]) == DestroyStep(DestroyAll(pools, pool, names[..i]), pool, names[i])
    ensures DestroyAllCalls(pools, pool, names[..i + 1]) ==
              DestroyAllCalls(pools, pool, names[..i]) + Repeat(Call.Remove(pool, names[i]), AttemptsOf(Lookup(pools, pool, names[i])))
  {
    var init := names[..i + 1];
    assert init[..|init| - 1] == names[..i];
    assert init[|init| - 1] == names[i];
  }

  /** The first `i` owned names, then owned[i]. */
  lemma PrefixSnoc(owned: seq<string>, i: nat)
    requires Distinct(owned) && i < |owned|
    ensures owned[..i + 1][..i] == owned[..i] && owned[..i + 1][i] == owned[i]
    ensures owned[i] !in owned[..i]
  {
    forall j | 0 <= j < i ensures owned[..i][j] != owned[i] {
      assert owned[j] != owned[i];
    }
  }

  /**
   * Where cleanup_volumes stands before destroying owned[i]: that volume is
   * still as listed, the destroyer removes it without error, and one more
   * destroyer run extends DestroyAll and DestroyAllCalls by that volume.
   */
  lemma CleanupOne(m0: map<string, Pool>, pool: string, owned: seq<string>, i: nat)
    requires pool in m0 && m0[pool].WellFormed() && Distinct(owned) && i < |owned|
    requires forall x :: x in owned ==> x in m0[pool].names
    ensures var cur := DestroyAll(m0, pool, owned[..i]);
      var v := Lookup(m0, pool, owned[i]);
      && v.Some?
      && Lookup(cur, pool, owned[i]) == v
      && DestroyRun(Outcomes(v, false)) == Destroyed(DestroyAttempts(v.value), Ok(()))
      && Put(cur, pool, owned[i], AfterAttempts(v, false, DestroyAttempts(v.value)))
           == DestroyAll(m0, pool, owned[..i + 1])
      && DestroyAllCalls(m0, pool, owned[..i + 1])
           == DestroyAllCalls(m0, pool, owned[..i]) + Repeat(Call.Remove(pool, owned[i]), DestroyAttempts(v.value))
  {
    var name := owned[i];
    assert name in owned;
    assert name in m0[pool].names;
    var k :| 0 <= k < |m0[pool].names| && m0[pool].names[k] == name;
    assert name in m0[pool].volumes;
    var v := Lookup(m0, pool, name);
    PrefixSnoc(owned, i);
    DestroyAllUntouched(m0, pool, owned[..i], name);
    DestroyExisting(v.value);
    DestroyAllSnoc(m0, pool, owned, i);
    var cur := DestroyAll(m0, pool, owned[..i]);
    assert DestroyStep(cur, pool, name) == Put(cur, pool, name, DestroyEffect(v.value));
  }
}
