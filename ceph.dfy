/**
 * An abstract Ceph cluster standing in for the `rados` and `rbd` native
 * libraries the driver calls. Pools hold volumes in listing order; each volume
 * holds an ordered list of snapshots with a `protected` flag and a busy counter
 * (the watchers that still hold it open). The cluster counts the client
 * sessions, pool contexts and image handles that are open, and logs every
 * image- and pool-level native call in order.
 *
 * Every native call is a method whose effect is given by a pure transition
 * function on the pools; the method applies it and logs the call.
 */
module Ceph {
  import opened Wrappers

  /** The native exceptions. RadosError is rados.Error; the others are rbd.Error subclasses. */
  datatype NativeError =
    | RadosError
    | ImageNotFound
    | ImageExists
    | ImageBusy
    | ImageHasSnapshots
    | PermissionError
    | ReadOnlyImage
    | InvalidArgument

  predicate IsRbdError(e: NativeError) {
    e != RadosError
  }

  type Outcome<T> = Result<T, NativeError>

  datatype Snap = Snap(name: string, protected: bool)
  datatype Parent = Parent(pool: string, image: string, snapshot: string)

  /** `watchers` counts the remove attempts that will still find the volume busy. */
  datatype Volume = Volume(size: nat, snaps: seq<Snap>, watchers: nat, parent: Option<Parent>)

  /** A pool: volume names in listing order and the volumes themselves. */
  datatype Pool = Pool(names: seq<string>, volumes: map<string, Volume>) {
    ghost predicate WellFormed() {
      && (forall i :: 0 <= i < |names| ==> names[i] in volumes)
      && (forall n :: n in volumes ==> n in names)
      && Distinct(names)
    }
  }

  datatype Stats = Stats(kb: nat, kbAvail: nat, kbUsed: nat)

  /** An open rbd.Image: which volume, at which snapshot, and whether read-only. */
  datatype Image = Image(pool: string, name: string, snapshot: Option<string>, readOnly: bool)

  /** The image- and pool-level native calls, as the cluster logs them. */
  datatype Call =
    | GetFsid
    | GetClusterStats
    | Open(pool: string, name: string, snapshot: Option<string>, readOnly: bool)
    | Close(image: Image)
    | Size(image: Image)
    | Resize(image: Image, size: nat)
    | CreateSnap(image: Image, snap: string)
    | ListSnaps(image: Image)
    | IsProtectedSnap(image: Image, snap: string)
    | ProtectSnap(image: Image, snap: string)
    | UnprotectSnap(image: Image, snap: string)
    | RemoveSnap(image: Image, snap: string)
    | ParentInfo(image: Image)
    | Flatten(image: Image)
    | Clone(srcPool: string, srcImage: string, srcSnap: string, destPool: string, destName: string)
    | Remove(pool: string, name: string)
    | List(pool: string)

  // ---------------------------------------------------------------- snapshots

  predicate HasSnap(snaps: seq<Snap>, name: string) {
    exists i :: 0 <= i < |snaps| && snaps[i].name == name
  }

  predicate SnapProtected(snaps: seq<Snap>, name: string) {
    exists i :: 0 <= i < |snaps| && snaps[i].name == name && snaps[i].protected
  }

  function SnapNames(snaps: seq<Snap>): (r: seq<string>)
    ensures |r| == |snaps|
    ensures forall i :: 0 <= i < |snaps| ==> r[i] == snaps[i].name
  {
    if snaps == [] then [] else [snaps[0].name] + SnapNames(snaps[1..])
  }

  /** The snapshot list with every snapshot called `name` marked as `flag`. */
  function SetProtection(snaps: seq<Snap>, name: string, flag: bool): (r: seq<Snap>)
    ensures |r| == |snaps|
    ensures forall i :: 0 <= i < |snaps| ==>
              r[i] == if snaps[i].name == name then Snap(name, flag) else snaps[i]
  {
    if snaps == [] then []
    else [if snaps[0].name == name then Snap(name, flag) else snaps[0]]
         + SetProtection(snaps[1..], name, flag)
  }

  /** The snapshot list without the snapshots called `name`, others kept in order. */
  function Without(snaps: seq<Snap>, name: string): (r: seq<Snap>)
    ensures forall s :: s in r <==> s in snaps && s.name != name
    ensures |r| <= |snaps|
  {
    if snaps == [] then []
    else if snaps[0].name == name then Without(snaps[1..], name)
    else [snaps[0]] + Without(snaps[1..], name)
  }

  /**
   * Without keeps the order of the snapshots it keeps: it filters each part
   * of a concatenation, and a single snapshot is dropped exactly when it has the name.
   */
  lemma {:induction false} WithoutAppend(a: seq<Snap>, b: seq<Snap>, name: string)
    ensures Without(a + b, name) == Without(a, name) + Without(b, name)
    ensures forall x :: Without([x], name) == if x.name == name then [] else [x]
  {
    if a != [] {
      assert (a + b)[1..] == a[1..] + b;
      WithoutAppend(a[1..], b, name);
    } else {
      assert a + b == b;
    }
    forall x ensures Without([x], name) == if x.name == name then [] else [x] {
      assert [x][1..] == [];
    }
  }

  /** list_snaps names a snapshot exactly when the volume has one of that name. */
  lemma SnapNamesHas(snaps: seq<Snap>, name: string)
    ensures name in SnapNames(snaps) <==> HasSnap(snaps, name)
  {
    var ns := SnapNames(snaps);
    if name in ns {
      var i :| 0 <= i < |ns| && ns[i] == name;
      assert snaps[i].name == name;
    }
    if HasSnap(snaps, name) {
      var i :| 0 <= i < |snaps| && snaps[i].name == name;
      assert ns[i] == name;
    }
  }

  /** A snapshot appended under a fresh name is the only one of that name. */
  lemma AppendSnap(snaps: seq<Snap>, name: string, flag: bool)
    requires !HasSnap(snaps, name)
    ensures HasSnap(snaps + [Snap(name, flag)], name)
    ensures SnapProtected(snaps + [Snap(name, flag)], name) == flag
    ensures SetProtection(snaps + [Snap(name, false)], name, true) == snaps + [Snap(name, true)]
  {
    var t := snaps + [Snap(name, flag)];
    assert t[|snaps|] == Snap(name, flag);
    assert forall i :: 0 <= i < |snaps| ==> t[i] == snaps[i];
    var u := SetProtection(snaps + [Snap(name, false)], name, true);
    forall i | 0 <= i < |snaps| ensures u[i] == snaps[i] {
      assert (snaps + [Snap(name, false)])[i] == snaps[i];
    }
  }

  /** Unprotecting first does not change which snapshots a removal keeps. */
  lemma {:induction false} WithoutUnprotected(snaps: seq<Snap>, name: string)
    ensures Without(SetProtection(snaps, name, false), name) == Without(snaps, name)
  {
    if snaps != [] {
      WithoutUnprotected(snaps[1..], name);
      var u := SetProtection(snaps, name, false);
      assert u[1..] == SetProtection(snaps[1..], name, false);
    }
  }

  lemma UnprotectedSnaps(snaps: seq<Snap>, name: string)
    ensures HasSnap(SetProtection(snaps, name, false), name) == HasSnap(snaps, name)
    ensures !SnapProtected(SetProtection(snaps, name, false), name)
  {
    var u := SetProtection(snaps, name, false);
    if HasSnap(snaps, name) {
      var i :| 0 <= i < |snaps| && snaps[i].name == name;
      assert u[i].name == name;
    }
    if HasSnap(u, name) {
      var i :| 0 <= i < |u| && u[i].name == name;
      assert snaps[i].name == name;
    }
  }

  // -------------------------------------------------------------------- pools

  /** The name list without `n`, others kept in order. */
  function Erase(names: seq<string>, n: string): (r: seq<string>)
    ensures forall x :: x in r <==> x in names && x != n
    ensures |r| <= |names|
  {
    if names == [] then []
    else if names[0] == n then Erase(names[1..], n)
    else [names[0]] + Erase(names[1..], n)
  }

  predicate Distinct(names: seq<string>) {
    forall i, j :: 0 <= i < j < |names| ==> names[i] != names[j]
  }

  lemma {:induction false} EraseDistinct(names: seq<string>, n: string)
    ensures Distinct(names) ==> Distinct(Erase(names, n))
  {
    if names != [] && Distinct(names) {
      EraseDistinct(names[1..], n);
      var t := Erase(names[1..], n);
      if names[0] != n {
        assert names[0] !in names[1..];
        assert names[0] !in t;
        var r := [names[0]] + t;
        forall i, j | 0 <= i < j < |r| ensures r[i] != r[j] {
          if i == 0 { assert r[j] == t[j - 1]; assert t[j - 1] in t; }
        }
      }
    }
  }

  function Lookup(pools: map<string, Pool>, pool: string, name: string): Option<Volume> {
    if pool in pools && name in pools[pool].volumes then Some(pools[pool].volumes[name]) else None
  }

  ghost predicate AllWellFormed(pools: map<string, Pool>) {
    forall p {:trigger pools[p].WellFormed()} :: p in pools ==> pools[p].WellFormed()
  }

  /** The pools with the existing volume `pool`/`name` replaced by `v`. */
  function Store(pools: map<string, Pool>, pool: string, name: string, v: Volume): (r: map<string, Pool>)
    requires Lookup(pools, pool, name).Some?
    ensures r.Keys == pools.Keys
    ensures AllWellFormed(pools) ==> AllWellFormed(r)
    ensures forall p, n :: Lookup(r, p, n) == if p == pool && n == name then Some(v) else Lookup(pools, p, n)
    ensures forall p :: p in pools ==> r[p].names == pools[p].names
  {
    var r := pools[pool := pools[pool].(volumes := pools[pool].volumes[name := v])];
    ReplaceWellFormed(pools, pool, r[pool]);
    r
  }

  /** Replacing one pool by a well-formed one keeps every pool well-formed. */
  lemma ReplaceWellFormed(pools: map<string, Pool>, pool: string, pl: Pool)
    requires pool in pools
    requires pools[pool].WellFormed() ==> pl.WellFormed()
    ensures AllWellFormed(pools) ==> AllWellFormed(pools[pool := pl])
  {
    if AllWellFormed(pools) {
      var r := pools[pool := pl];
      assert pools[pool].WellFormed();
      forall p | p in r ensures r[p].WellFormed() {
        assert pools[p].WellFormed();
      }
    }
  }

  /** The pools with `pool`/`name` deleted. */
  function Delete(pools: map<string, Pool>, pool: string, name: string): (r: map<string, Pool>)
    requires Lookup(pools, pool, name).Some?
    ensures r.Keys == pools.Keys
    ensures AllWellFormed(pools) ==> AllWellFormed(r)
    ensures forall p, n :: Lookup(r, p, n) == if p == pool && n == name then None else Lookup(pools, p, n)
    ensures forall p :: p in pools && p != pool ==> r[p] == pools[p]
    ensures r[pool].names == Erase(pools[pool].names, name)
  {
    var pl := pools[pool];
    EraseWellFormed(pl, name);
    pools[pool := Pool(Erase(pl.names, name), pl.volumes - {name})]
  }

  lemma EraseWellFormed(pl: Pool, name: string)
    ensures pl.WellFormed() ==> Pool(Erase(pl.names, name), pl.volumes - {name}).WellFormed()
  {
    EraseDistinct(pl.names, name);
    var r := Erase(pl.names, name);
    if pl.WellFormed() {
      forall i | 0 <= i < |r| ensures r[i] in pl.volumes - {name} {
        assert r[i] in r;
      }
    }
  }

  /** The pools with a new volume `pool`/`name` listed last. */
  function Add(pools: map<string, Pool>, pool: string, name: string, v: Volume): (r: map<string, Pool>)
    requires pool in pools && Lookup(pools, pool, name).None?
    ensures r.Keys == pools.Keys
    ensures AllWellFormed(pools) ==> AllWellFormed(r)
    ensures forall p, n :: Lookup(r, p, n) == if p == pool && n == name then Some(v) else Lookup(pools, p, n)
  {
    var pl := pools[pool];
    var r := pools[pool := Pool(pl.names + [name], pl.volumes[name := v])];
    AddWellFormed(pl, name, v);
    ReplaceWellFormed(pools, pool, r[pool]);
    r
  }

  lemma AddWellFormed(pl: Pool, name: string, v: Volume)
    requires name !in pl.volumes
    ensures pl.WellFormed() ==> Pool(pl.names + [name], pl.volumes[name := v]).WellFormed()
  {
    if pl.WellFormed() {
      var ns := pl.names + [name];
      forall i, j | 0 <= i < j < |ns| ensures ns[i] != ns[j] {
        if j == |pl.names| { assert ns[i] == pl.names[i] && pl.names[i] in pl.volumes; }
      }
    }
  }

  lemma StoreStore(pools: map<string, Pool>, pool: string, name: string, a: Volume, b: Volume)
    requires Lookup(pools, pool, name).Some?
    ensures Store(Store(pools, pool, name, a), pool, name, b) == Store(pools, pool, name, b)
  {
    var pl := pools[pool];
    assert pl.volumes[name := a][name := b] == pl.volumes[name := b];
  }

  lemma StoreSame(pools: map<string, Pool>, pool: string, name: string)
    requires Lookup(pools, pool, name).Some?
    ensures Store(pools, pool, name, Lookup(pools, pool, name).value) == pools
  {
    var pl := pools[pool];
    assert pl.volumes[name := pl.volumes[name]] == pl.volumes;
    assert pl.(volumes := pl.volumes) == pl;
  }

  lemma DeleteStore(pools: map<string, Pool>, pool: string, name: string, a: Volume)
    requires Lookup(pools, pool, name).Some?
    ensures Delete(Store(pools, pool, name, a), pool, name) == Delete(pools, pool, name)
  {
    var pl := pools[pool];
    assert pl.volumes[name := a] - {name} == pl.volumes - {name};
  }

  // ------------------------------------------------- the native transitions

  /** rbd.Image(ioctx, name, snapshot, read_only). */
  function OpenStep(pools: map<string, Pool>, denied: set<string>, img: Image): Outcome<Image> {
    if img.pool in denied then Err(PermissionError)
    else match Lookup(pools, img.pool, img.name)
      case None => Err(ImageNotFound)
      case Some(v) =>
        if img.snapshot.Some? && !HasSnap(v.snaps, img.snapshot.value) then Err(ImageNotFound)
        else Ok(img)
  }

  /** A write through `img` is refused when the volume is gone or the handle is read-only. */
  function Writable(pools: map<string, Pool>, img: Image): Outcome<Volume> {
    match Lookup(pools, img.pool, img.name)
    case None => Err(ImageNotFound)
    case Some(v) => if img.readOnly then Err(ReadOnlyImage) else Ok(v)
  }

  function ResizeStep(pools: map<string, Pool>, img: Image, size: nat): (Outcome<()>, map<string, Pool>) {
    match Writable(pools, img)
    case Err(e) => (Err(e), pools)
    case Ok(v) => (Ok(()), Store(pools, img.pool, img.name, v.(size := size)))
  }

  function CreateSnapStep(pools: map<string, Pool>, img: Image, snap: string): (Outcome<()>, map<string, Pool>) {
    match Writable(pools, img)
    case Err(e) => (Err(e), pools)
    case Ok(v) =>
      if HasSnap(v.snaps, snap) then (Err(ImageExists), pools)
      else (Ok(()), Store(pools, img.pool, img.name, v.(snaps := v.snaps + [Snap(snap, false)])))
  }

  function IsProtectedStep(pools: map<string, Pool>, img: Image, snap: string): Outcome<bool> {
    match Lookup(pools, img.pool, img.name)
    case None => Err(ImageNotFound)
    case Some(v) => if HasSnap(v.snaps, snap) then Ok(SnapProtected(v.snaps, snap)) else Err(ImageNotFound)
  }

  function ProtectStep(pools: map<string, Pool>, img: Image, snap: string): (Outcome<()>, map<string, Pool>) {
    match Writable(pools, img)
    case Err(e) => (Err(e), pools)
    case Ok(v) =>
      if !HasSnap(v.snaps, snap) then (Err(ImageNotFound), pools)
      else if SnapProtected(v.snaps, snap) then (Err(ImageBusy), pools)
      else (Ok(()), Store(pools, img.pool, img.name, v.(snaps := SetProtection(v.snaps, snap, true))))
  }

  function UnprotectStep(pools: map<string, Pool>, img: Image, snap: string): (Outcome<()>, map<string, Pool>) {
    match Writable(pools, img)
    case Err(e) => (Err(e), pools)
    case Ok(v) =>
      if !HasSnap(v.snaps, snap) then (Err(ImageNotFound), pools)
      else if !SnapProtected(v.snaps, snap) then (Err(InvalidArgument), pools)
      else (Ok(()), Store(pools, img.pool, img.name, v.(snaps := SetProtection(v.snaps, snap, false))))
  }

  /** Removing a protected snapshot is refused as busy. */
  function RemoveSnapStep(pools: map<string, Pool>, img: Image, snap: string): (Outcome<()>, map<string, Pool>) {
    match Writable(pools, img)
    case Err(e) => (Err(e), pools)
    case Ok(v) =>
      if !HasSnap(v.snaps, snap) then (Err(ImageNotFound), pools)
      else if SnapProtected(v.snaps, snap) then (Err(ImageBusy), pools)
      else (Ok(()), Store(pools, img.pool, img.name, v.(snaps := Without(v.snaps, snap))))
  }

  /** A protected snapshot, unprotected and then removed: only the other snapshots remain. */
  lemma UnprotectThenRemove(pools: map<string, Pool>, img: Image, snap: string)
    requires Lookup(pools, img.pool, img.name).Some? && !img.readOnly
    requires HasSnap(Lookup(pools, img.pool, img.name).value.snaps, snap)
    requires SnapProtected(Lookup(pools, img.pool, img.name).value.snaps, snap)
    ensures var v := Lookup(pools, img.pool, img.name).value;
      var u := UnprotectStep(pools, img, snap);
      && u.0 == Ok(())
      && RemoveSnapStep(u.1, img, snap) == (Ok(()), Store(pools, img.pool, img.name, v.(snaps := Without(v.snaps, snap))))
  {
    var v := Lookup(pools, img.pool, img.name).value;
    var v1 := v.(snaps := SetProtection(v.snaps, snap, false));
    UnprotectedSnaps(v.snaps, snap);
    WithoutUnprotected(v.snaps, snap);
    var m1 := Store(pools, img.pool, img.name, v1);
    assert Lookup(m1, img.pool, img.name) == Some(v1);
    StoreStore(pools, img.pool, img.name, v1, v.(snaps := Without(v.snaps, snap)));
  }

  /** A volume without a parent reports ImageNotFound. */
  function ParentInfoStep(pools: map<string, Pool>, img: Image): Outcome<Parent> {
    match Lookup(pools, img.pool, img.name)
    case None => Err(ImageNotFound)
    case Some(v) => if v.parent.Some? then Ok(v.parent.value) else Err(ImageNotFound)
  }

  function FlattenStep(pools: map<string, Pool>, img: Image): (Outcome<()>, map<string, Pool>) {
    match Writable(pools, img)
    case Err(e) => (Err(e), pools)
    case Ok(v) =>
      if v.parent.None? then (Err(InvalidArgument), pools)
      else (Ok(()), Store(pools, img.pool, img.name, v.(parent := None)))
  }

  /** rbd.RBD().clone: a layered child of a protected snapshot. */
  function CloneStep(pools: map<string, Pool>, denied: set<string>, srcPool: string, image: string,
                     snap: string, destPool: string, destName: string): (Outcome<()>, map<string, Pool>)
  {
    if srcPool in denied || destPool in denied then (Err(PermissionError), pools)
    else match Lookup(pools, srcPool, image)
      case None => (Err(ImageNotFound), pools)
      case Some(p) =>
        if !HasSnap(p.snaps, snap) then (Err(ImageNotFound), pools)
        else if !SnapProtected(p.snaps, snap) then (Err(InvalidArgument), pools)
        else if destPool !in pools then (Err(ImageNotFound), pools)
        else if Lookup(pools, destPool, destName).Some? then (Err(ImageExists), pools)
        else (Ok(()), Add(pools, destPool, destName, Volume(p.size, [], 0, Some(Parent(srcPool, image, snap)))))
  }

  /**
   * rbd.RBD().remove: refused while the volume has snapshots; while watchers
   * remain, one goes away per attempt and the attempt reports busy.
   */
  function RemoveStep(pools: map<string, Pool>, refused: bool, pool: string, name: string)
    : (Outcome<()>, map<string, Pool>)
  {
    if refused then (Err(PermissionError), pools)
    else match Lookup(pools, pool, name)
      case None => (Err(ImageNotFound), pools)
      case Some(v) =>
        if v.snaps != [] then (Err(ImageHasSnapshots), pools)
        else if v.watchers > 0 then (Err(ImageBusy), Store(pools, pool, name, v.(watchers := v.watchers - 1)))
        else (Ok(()), Delete(pools, pool, name))
  }

  /**
   * Whether the client's capabilities refuse removing `pool`/`name`: the whole
   * pool is denied, or the volume is one it may list and open but not remove.
   */
  predicate RemoveRefused(denied: set<string>, undeletable: set<(string, string)>, pool: string, name: string) {
    pool in denied || (pool, name) in undeletable
  }

  function ListStep(pools: map<string, Pool>, denied: set<string>, pool: string): Outcome<seq<string>> {
    if pool in denied then Err(PermissionError)
    else if pool in pools then Ok(pools[pool].names)
    else Ok([])
  }

  // ---------------------------------------------------------- the cluster

  class Cluster {
    /** Whether a client can connect at all. */
    const up: bool
    const fsid: string
    /** Pools the client's capabilities do not cover: every image or pool operation there is refused. */
    const denied: set<string>
    /** Volumes, as pool and name, the client may list and open but not remove. */
    const undeletable: set<(string, string)>
    const stats: Stats

    var pools: map<string, Pool>
    /** rados.Rados clients created and not shut down. */
    var clients: nat
    /** Pool contexts opened and not closed. */
    var ioctxs: nat
    /** Image handles opened and not closed. */
    var images: nat
    var calls: seq<Call>

    /** The open clients, pool contexts and image handles. */
    function Held(): (nat, nat, nat)
      reads this
    {
      (clients, ioctxs, images)
    }

    /** Whether rbd.RBD().remove of `pool`/`name` is refused for lack of permission. */
    predicate Refuses(pool: string, name: string) {
      RemoveRefused(denied, undeletable, pool, name)
    }

    ghost predicate Valid()
      reads this
    {
      AllWellFormed(pools)
    }

    constructor (up: bool, fsid: string, denied: set<string>, undeletable: set<(string, string)>, stats: Stats,
                 pools: map<string, Pool>)
      requires AllWellFormed(pools)
      ensures Valid()
      ensures this.up == up && this.fsid == fsid && this.denied == denied && this.undeletable == undeletable
      ensures this.stats == stats
      ensures this.pools == pools && clients == 0 && ioctxs == 0 && images == 0 && calls == []
    {
      this.up, this.fsid, this.denied, this.undeletable, this.stats := up, fsid, denied, undeletable, stats;
      this.pools := pools;
      clients, ioctxs, images, calls := 0, 0, 0, [];
    }

    /** rados.Rados(...): a new, not yet connected client. */
    method NewClient()
      modifies this
      ensures clients == old(clients) + 1
      ensures pools == old(pools) && ioctxs == old(ioctxs) && images == old(images) && calls == old(calls)
    {
      clients := clients + 1;
    }

    /** client.connect(). */
    method Connect() returns (r: Outcome<()>)
      ensures r == if up then Ok(()) else Err(RadosError)
    {
      r := if up then Ok(()) else Err(RadosError);
    }

    /** client.open_ioctx(pool): fails when the pool does not exist. */
    method OpenIoctx(pool: string) returns (r: Outcome<()>)
      modifies this
      ensures r == if pool in pools then Ok(()) else Err(RadosError)
      ensures ioctxs == if r.Ok? then old(ioctxs) + 1 else old(ioctxs)
      ensures pools == old(pools) && clients == old(clients) && images == old(images) && calls == old(calls)
    {
      if pool in pools {
        ioctxs := ioctxs + 1;
        r := Ok(());
      } else {
        r := Err(RadosError);
      }
    }

    /** ioctx.close(): never raises. */
    method CloseIoctx()
      requires ioctxs > 0
      modifies this
      ensures ioctxs == old(ioctxs) - 1
      ensures pools == old(pools) && clients == old(clients) && images == old(images) && calls == old(calls)
    {
      ioctxs := ioctxs - 1;
    }

    /** client.shutdown(): never raises. */
    method Shutdown()
      requires clients > 0
      modifies this
      ensures clients == old(clients) - 1
      ensures pools == old(pools) && ioctxs == old(ioctxs) && images == old(images) && calls == old(calls)
    {
      clients := clients - 1;
    }

    method GetFsid() returns (id: string)
      modifies this
      ensures id == fsid && calls == old(calls) + [Call.GetFsid]
      ensures pools == old(pools) && clients == old(clients) && ioctxs == old(ioctxs) && images == old(images)
    {
      calls := calls + [Call.GetFsid];
      id := fsid;
    }

    method GetClusterStats() returns (s: Stats)
      modifies this
      ensures s == stats && calls == old(calls) + [Call.GetClusterStats]
      ensures pools == old(pools) && clients == old(clients) && ioctxs == old(ioctxs) && images == old(images)
    {
      calls := calls + [Call.GetClusterStats];
      s := stats;
    }

    method Open(pool: string, name: string, snapshot: Option<string>, readOnly: bool) returns (r: Outcome<Image>)
      modifies this
      ensures r == OpenStep(old(pools), denied, Image(pool, name, snapshot, readOnly))
      ensures images == if r.Ok? then old(images) + 1 else old(images)
      ensures calls == old(calls) + [Call.Open(pool, name, snapshot, readOnly)]
      ensures pools == old(pools) && clients == old(clients) && ioctxs == old(ioctxs)
    {
      calls := calls + [Call.Open(pool, name, snapshot, readOnly)];
      r := OpenStep(pools, denied, Image(pool, name, snapshot, readOnly));
      if r.Ok? {
        images := images + 1;
      }
    }

    /** image.close(): never raises. */
    method Close(img: Image)
      requires images > 0
      modifies this
      ensures images == old(images) - 1 && calls == old(calls) + [Call.Close(img)]
      ensures pools == old(pools) && clients == old(clients) && ioctxs == old(ioctxs)
    {
      calls := calls + [Call.Close(img)];
      images := images - 1;
    }

    method Size(img: Image) returns (r: Outcome<nat>)
      modifies this
      ensures r == match Lookup(old(pools), img.pool, img.name)
                   case None => Err(ImageNotFound)
                   case Some(v) => Ok(v.size)
      ensures calls == old(calls) + [Call.Size(img)]
      ensures pools == old(pools) && clients == old(clients) && ioctxs == old(ioctxs) && images == old(images)
    {
      calls := calls + [Call.Size(img)];
      r := match Lookup(pools, img.pool, img.name)
           case None => Err(ImageNotFound)
           case Some(v) => Ok(v.size);
    }

    method Resize(img: Image, size: nat) returns (r: Outcome<()>)
      requires Valid()
      modifies this
      ensures Valid()
      ensures (r, pools) == ResizeStep(old(pools), img, size)
      ensures calls == old(calls) + [Call.Resize(img, size)]
      ensures clients == old(clients) && ioctxs == old(ioctxs) && images == old(images)
    {
      calls := calls + [Call.Resize(img, size)];
      r, pools := ResizeStep(pools, img, size).0, ResizeStep(pools, img, size).1;
    }

    method CreateSnap(img: Image, snap: string) returns (r: Outcome<()>)
      requires Valid()
      modifies this
      ensures Valid()
      ensures (r, pools) == CreateSnapStep(old(pools), img, snap)
      ensures calls == old(calls) + [Call.CreateSnap(img, snap)]
      ensures clients == old(clients) && ioctxs == old(ioctxs) && images == old(images)
    {
      calls := calls + [Call.CreateSnap(img, snap)];
      r, pools := CreateSnapStep(pools, img, snap).0, CreateSnapStep(pools, img, snap).1;
    }

    /** image.list_snaps(), reduced to the snapshot names the driver reads. */
    method ListSnaps(img: Image) returns (r: Outcome<seq<string>>)
      modifies this
      ensures r == match Lookup(old(pools), img.pool, img.name)
                   case None => Err(ImageNotFound)
                   case Some(v) => Ok(SnapNames(v.snaps))
      ensures calls == old(calls) + [Call.ListSnaps(img)]
      ensures pools == old(pools) && clients == old(clients) && ioctxs == old(ioctxs) && images == old(images)
    {
      calls := calls + [Call.ListSnaps(img)];
      r := match Lookup(pools, img.pool, img.name)
           case None => Err(ImageNotFound)
           case Some(v) => Ok(SnapNames(v.snaps));
    }

    method IsProtectedSnap(img: Image, snap: string) returns (r: Outcome<bool>)
      modifies this
      ensures r == IsProtectedStep(old(pools), img, snap)
      ensures calls == old(calls) + [Call.IsProtectedSnap(img, snap)]
      ensures pools == old(pools) && clients == old(clients) && ioctxs == old(ioctxs) && images == old(images)
    {
      calls := calls + [Call.IsProtectedSnap(img, snap)];
      r := IsProtectedStep(pools, img, snap);
    }

    method ProtectSnap(img: Image, snap: string) returns (r: Outcome<()>)
      requires Valid()
      modifies this
      ensures Valid()
      ensures (r, pools) == ProtectStep(old(pools), img, snap)
      ensures calls == old(calls) + [Call.ProtectSnap(img, snap)]
      ensures clients == old(clients) && ioctxs == old(ioctxs) && images == old(images)
    {
      calls := calls + [Call.ProtectSnap(img, snap)];
      r, pools := ProtectStep(pools, img, snap).0, ProtectStep(pools, img, snap).1;
    }

    method UnprotectSnap(img: Image, snap: string) returns (r: Outcome<()>)
      requires Valid()
      modifies this
      ensures Valid()
      ensures (r, pools) == UnprotectStep(old(pools), img, snap)
      ensures calls == old(calls) + [Call.UnprotectSnap(img, snap)]
      ensures clients == old(clients) && ioctxs == old(ioctxs) && images == old(images)
    {
      calls := calls + [Call.UnprotectSnap(img, snap)];
      r, pools := UnprotectStep(pools, img, snap).0, UnprotectStep(pools, img, snap).1;
    }

    method RemoveSnap(img: Image, snap: string) returns (r: Outcome<()>)
      requires Valid()
      modifies this
      ensures Valid()
      ensures (r, pools) == RemoveSnapStep(old(pools), img, snap)
      ensures calls == old(calls) + [Call.RemoveSnap(img, snap)]
      ensures clients == old(clients) && ioctxs == old(ioctxs) && images == old(images)
    {
      calls := calls + [Call.RemoveSnap(img, snap)];
      r, pools := RemoveSnapStep(pools, img, snap).0, RemoveSnapStep(pools, img, snap).1;
    }

    method ParentInfo(img: Image) returns (r: Outcome<Parent>)
      modifies this
      ensures r == ParentInfoStep(old(pools), img)
      ensures calls == old(calls) + [Call.ParentInfo(img)]
      ensures pools == old(pools) && clients == old(clients) && ioctxs == old(ioctxs) && images == old(images)
    {
      calls := calls + [Call.ParentInfo(img)];
      r := ParentInfoStep(pools, img);
    }

    method Flatten(img: Image) returns (r: Outcome<()>)
      requires Valid()
      modifies this
      ensures Valid()
      ensures (r, pools) == FlattenStep(old(pools), img)
      ensures calls == old(calls) + [Call.Flatten(img)]
      ensures clients == old(clients) && ioctxs == old(ioctxs) && images == old(images)
    {
      calls := calls + [Call.Flatten(img)];
      r, pools := FlattenStep(pools, img).0, FlattenStep(pools, img).1;
    }

    method Clone(srcPool: string, image: string, snap: string, destPool: string, destName: string)
      returns (r: Outcome<()>)
      requires Valid()
      modifies this
      ensures Valid()
      ensures (r, pools) == CloneStep(old(pools), denied, srcPool, image, snap, destPool, destName)
      ensures calls == old(calls) + [Call.Clone(srcPool, image, snap, destPool, destName)]
      ensures clients == old(clients) && ioctxs == old(ioctxs) && images == old(images)
    {
      calls := calls + [Call.Clone(srcPool, image, snap, destPool, destName)];
      var step := CloneStep(pools, denied, srcPool, image, snap, destPool, destName);
      r, pools := step.0, step.1;
    }

    method Remove(pool: string, name: string) returns (r: Outcome<()>)
      requires Valid()
      modifies this
      ensures Valid()
      ensures (r, pools) == RemoveStep(old(pools), Refuses(pool, name), pool, name)
      ensures calls == old(calls) + [Call.Remove(pool, name)]
      ensures clients == old(clients) && ioctxs == old(ioctxs) && images == old(images)
    {
      calls := calls + [Call.Remove(pool, name)];
      var step := RemoveStep(pools, Refuses(pool, name), pool, name);
      r, pools := step.0, step.1;
    }

    method List(pool: string) returns (r: Outcome<seq<string>>)
      modifies this
      ensures r == ListStep(old(pools), denied, pool)
      ensures calls == old(calls) + [Call.List(pool)]
      ensures pools == old(pools) && clients == old(clients) && ioctxs == old(ioctxs) && images == old(images)
    {
      calls := calls + [Call.List(pool)];
      r := ListStep(pools, denied, pool);
    }
  }
}
