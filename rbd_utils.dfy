/**
 * RBDDriver and its two connection helpers, RADOSClient and RBDVolumeProxy,
 * run against the cluster model of module Ceph.
 *
 * Every operation states its result, the pools it leaves and the native calls
 * it makes as functions of the cluster it started from, and every operation
 * gives back each client session, pool context and image handle it opened,
 * on the error paths too.
 */
module RbdUtils {
  import opened Wrappers
  import opened Ceph
  import opened RbdLocation
  import opened RbdRetry
  import opened RbdCleanup

  /** Why exception.ImageUnacceptable is raised. */
  datatype Unacceptable = Rejected(rejection: Rejection) | NoUsableParent

  /** What the driver's operations raise. */
  datatype Error =
    | Native(native: NativeError)          // a rados or rbd error passed through
    | ImageUnacceptable(reason: Unacceptable)
    | Forbidden(pool: Option<string>)    // no write permission on the destination pool
    | NoLayering                         // the bindings lack RBD_FEATURE_LAYERING

  /** Python truthiness of an optional string: None and "" count as absent. */
  function NonEmpty(s: Option<string>): (r: Option<string>)
    ensures r.Some? <==> s.Some? && s.value != ""
    ensures r.Some? ==> r == s
  {
    if s.Some? && s.value != "" then s else None
  }

  // ---------------------------------------------------- command-line arguments

  /** The value after the first `flag` among the flag/value pairs of `args`. */
  function FlagValue(args: seq<string>, flag: string): Option<string>
    decreases |args|
  {
    if |args| < 2 then None
    else if args[0] == flag then Some(args[1])
    else FlagValue(args[2..], flag)
  }

  /**
   * The arguments that make a ceph command use the driver's configuration:
   * flag/value pairs only, `--id` exactly when a user is configured and
   * `--conf` exactly when a configuration file is, each at most once and
   * `--id` first.
   */
  predicate CephFlags(args: seq<string>, rbdUser: Option<string>, cephConf: string) {
    && |args| == (if NonEmpty(rbdUser).Some? then 2 else 0) + (if cephConf != "" then 2 else 0)
    && (forall i :: 0 <= i < |args| && i % 2 == 0 ==> args[i] == "--id" || args[i] == "--conf")
    && (|args| == 4 ==> args[0] == "--id")
    && FlagValue(args, "--id") == NonEmpty(rbdUser)
    && FlagValue(args, "--conf") == NonEmpty(Some(cephConf))
  }

  /** The configuration fixes the flags: no two different vectors both pass CephFlags. */
  lemma CephFlagsUnique(a: seq<string>, b: seq<string>, rbdUser: Option<string>, cephConf: string)
    requires CephFlags(a, rbdUser, cephConf) && CephFlags(b, rbdUser, cephConf)
    ensures a == b
  {
    if |a| == 2 {
      if NonEmpty(rbdUser).Some? {
        assert a[0] == "--id" && b[0] == "--id";
      } else {
        assert a[0] == "--conf" && b[0] == "--conf";
      }
      assert a == [a[0], a[1]] && b == [b[0], b[1]];
    } else if |a| == 4 {
      FourFlags(a, rbdUser, cephConf);
      FourFlags(b, rbdUser, cephConf);
    }
  }

  lemma FourFlags(a: seq<string>, rbdUser: Option<string>, cephConf: string)
    requires CephFlags(a, rbdUser, cephConf) && |a| == 4
    ensures a == ["--id", NonEmpty(rbdUser).value, "--conf", cephConf]
  {
    assert FlagValue(a, "--conf") == FlagValue(a[2..], "--conf");
    assert a[2..][2..] == [];
    assert a == [a[0], a[1], a[2], a[3]];
  }

  // -------------------------------------------------------------- pool usage

  const Ki: nat := 1024

  datatype PoolInfo = PoolInfo(total: nat, free: nat, used: nat)

  /** get_pool_info's dict: the cluster statistics, reported in KiB, in bytes. */
  function PoolInfoOf(s: Stats): (info: PoolInfo)
    ensures info.total % Ki == 0 && info.total / Ki == s.kb
    ensures info.free % Ki == 0 && info.free / Ki == s.kbAvail
    ensures info.used % Ki == 0 && info.used / Ki == s.kbUsed
  {
    PoolInfo(s.kb * Ki, s.kbAvail * Ki, s.kbUsed * Ki)
  }

  // ------------------------------------------------------------- cloneability

  /**
   * The chain of checks of is_cloneable, given what parse_url, _get_fsid and
   * the existence probe report: an unparsable location, another cluster or a
   * format other than raw make the image not cloneable; an rbd error of the
   * probe does too; a rados error of _get_fsid or of the probe escapes.
   */
  function CloneableVerdict(parsed: Result<Location, Rejection>, fsid: Result<string, Error>,
                            diskFormat: string, probe: Result<bool, Error>): (r: Result<bool, Error>)
    ensures r == Ok(true) <==>
              parsed.Ok? && fsid == Ok(parsed.value.fsid) && diskFormat == "raw" && probe == Ok(true)
    ensures r.Err? <==>
              && parsed.Ok?
              && (|| fsid.Err?
                  || (&& fsid == Ok(parsed.value.fsid) && diskFormat == "raw" && probe.Err?
                      && !(probe.error.Native? && IsRbdError(probe.error.native))))
    ensures r.Err? ==> (fsid.Err? && r.error == fsid.error) || (probe.Err? && r.error == probe.error)
  {
    match parsed
    case Err(_) => Ok(false)
    case Ok(loc) =>
      match fsid
      case Err(e) => Err(e)
      case Ok(id) =>
        if id != loc.fsid then Ok(false)
        else if diskFormat != "raw" then Ok(false)
        else
          match probe
          case Ok(b) => Ok(b)
          case Err(e) => if e.Native? && IsRbdError(e.native) then Ok(false) else Err(e)
  }

  /** The retry budget _cleanup_vol counts down, a dict in the source. */
  class RetryContext {
    var retries: int

    constructor (retries: int)
      ensures this.retries == retries
    {
      this.retries := retries;
    }
  }

  class RbdDriver {
    const cluster: Cluster
    const defaultPool: string
    /** The configuration file path, "" when none is configured. */
    const cephConf: string
    /** The rados user, None when none is configured. */
    const rbdUser: Option<string>
    /** supports_layering: whether the bindings define RBD_FEATURE_LAYERING. */
    const layering: bool

    constructor (cluster: Cluster, pool: string, cephConf: Option<string>, rbdUser: Option<string>, layering: bool)
      ensures this.cluster == cluster && defaultPool == pool && this.layering == layering
      ensures this.cephConf == if cephConf.Some? then cephConf.value else ""
      ensures this.rbdUser == NonEmpty(rbdUser)
    {
      this.cluster := cluster;
      defaultPool := pool;
      this.cephConf := if cephConf.Some? then cephConf.value else "";
      this.rbdUser := NonEmpty(rbdUser);
      this.layering := layering;
    }

    /** `pool or self.pool`. */
    function PoolOr(pool: Option<string>): string {
      if pool.Some? && pool.value != "" then pool.value else defaultPool
    }

    /** What _connect_to_rados(pool) returns: the pool its context is bound to. */
    function Connected(pool: Option<string>): (r: Result<string, Error>)
      reads cluster
      ensures r.Ok? <==> cluster.up && PoolOr(pool) in cluster.pools
      ensures r.Ok? ==> r.value == PoolOr(pool)
      ensures r.Err? ==> r.error == Native(RadosError)
    {
      if cluster.up && PoolOr(pool) in cluster.pools then Ok(PoolOr(pool)) else Err(Native(RadosError))
    }

    /** The image RBDVolumeProxy asks for. */
    function Handle(name: string, pool: Option<string>, snapshot: Option<string>, readOnly: bool): Image {
      Image(PoolOr(pool), name, NonEmpty(snapshot), readOnly)
    }

    /**
     * What RBDVolumeProxy(self, name, pool, snapshot, read_only) ends with: the
     * image opens exactly when the cluster is reachable, the pool exists and
     * is permitted, and the volume (and the snapshot, when one is named)
     * exists. Otherwise the connection's rados error, the pool's permission
     * error or ImageNotFound.
     */
    function OpenResult(name: string, pool: Option<string>, snapshot: Option<string>, readOnly: bool)
      : (r: Result<Image, Error>)
      reads cluster
      ensures r.Ok? ==>
                && r.value == Handle(name, pool, snapshot, readOnly)
                && cluster.up && r.value.pool !in cluster.denied
                && Lookup(cluster.pools, r.value.pool, name).Some?
                && (r.value.snapshot.Some? ==>
                      HasSnap(Lookup(cluster.pools, r.value.pool, name).value.snaps, r.value.snapshot.value))
      ensures var p := PoolOr(pool); var v := Lookup(cluster.pools, p, name); var snap := NonEmpty(snapshot);
        && (r.Ok? <==>
              && cluster.up && p in cluster.pools && p !in cluster.denied && v.Some?
              && (snap.Some? ==> HasSnap(v.value.snaps, snap.value)))
        && (r.Err? ==>
              r.error == Native(if !cluster.up || p !in cluster.pools then RadosError
                                else if p in cluster.denied then PermissionError
                                else ImageNotFound))
    {
      match Connected(pool)
      case Err(e) => Err(e)
      case Ok(_) =>
        match OpenStep(cluster.pools, cluster.denied, Handle(name, pool, snapshot, readOnly))
        case Err(e) => Err(Native(e))
        case Ok(img) => Ok(img)
    }

    /** The image open the proxy logs: none when the client could not connect. */
    function OpenCalls(name: string, pool: Option<string>, snapshot: Option<string>, readOnly: bool): seq<Call>
      reads cluster
    {
      if Connected(pool).Ok? then [Call.Open(PoolOr(pool), name, NonEmpty(snapshot), readOnly)] else []
    }

    /** The calls of a proxy opened and closed again with nothing in between. */
    function ProbeCalls(name: string, pool: Option<string>, snapshot: Option<string>): seq<Call>
      reads cluster
    {
      OpenCalls(name, pool, snapshot, true)
        + (if OpenResult(name, pool, snapshot, true).Ok? then [Call.Close(Handle(name, pool, snapshot, true))] else [])
    }

    /**
     * What exists(name, pool, snapshot) returns: true when the volume (and the
     * snapshot, when one is named) can be opened, false when the open reports
     * ImageNotFound; any other error escapes.
     */
    function ExistsResult(name: string, pool: Option<string>, snapshot: Option<string>): (r: Result<bool, Error>)
      reads cluster
      ensures var p := PoolOr(pool); var v := Lookup(cluster.pools, p, name);
        && (r == Ok(true) <==>
              && cluster.up && p in cluster.pools && p !in cluster.denied && v.Some?
              && (NonEmpty(snapshot).Some? ==> HasSnap(v.value.snaps, snapshot.value)))
        && (r == Ok(false) <==>
              && cluster.up && p in cluster.pools && p !in cluster.denied
              && (v.None? || (NonEmpty(snapshot).Some? && !HasSnap(v.value.snaps, snapshot.value))))
        && (r.Err? <==> !cluster.up || p !in cluster.pools || p in cluster.denied)
        && (r.Err? ==> r.error == Native(if cluster.up && p in cluster.pools then PermissionError else RadosError))
    {
      match OpenResult(name, pool, snapshot, true)
      case Ok(_) => Ok(true)
      case Err(e) => if e == Native(ImageNotFound) then Ok(false) else Err(e)
    }

    /** What _get_fsid returns. */
    function FsidResult(): (r: Result<string, Error>)
      reads cluster
      ensures r.Ok? <==> Connected(None).Ok?
      ensures r.Ok? ==> r.value == cluster.fsid
      ensures r.Err? ==> r.error == Native(RadosError)
    {
      match Connected(None)
      case Err(e) => Err(e)
      case Ok(_) => Ok(cluster.fsid)
    }

    // ---------------------------------------------------------- connections

    /**
     * _connect_to_rados: a new client connects and opens a context on `pool`,
     * or the driver's pool when none is given. On failure the client is shut
     * down again and the rados error escapes.
     */
    method ConnectToRados(pool: Option<string>) returns (r: Result<string, Error>)
      modifies cluster
      ensures r == old(Connected(pool))
      ensures cluster.Held() ==
                if r.Ok? then (old(cluster.clients) + 1, old(cluster.ioctxs) + 1, old(cluster.images))
                else old(cluster.Held())
      ensures cluster.pools == old(cluster.pools) && cluster.calls == old(cluster.calls)
    {
      cluster.NewClient();
      var c := cluster.Connect();
      if c.Err? {
        cluster.Shutdown();
        return Err(Native(c.error));
      }
      var target := PoolOr(pool);
      var o := cluster.OpenIoctx(target);
      if o.Err? {
        cluster.Shutdown();
        return Err(Native(o.error));
      }
      return Ok(target);
    }

    /** _disconnect_from_rados: closes the context, then shuts the client down. */
    method DisconnectFromRados()
      requires cluster.clients > 0 && cluster.ioctxs > 0
      modifies cluster
      ensures cluster.Held() == (old(cluster.clients) - 1, old(cluster.ioctxs) - 1, old(cluster.images))
      ensures cluster.pools == old(cluster.pools) && cluster.calls == old(cluster.calls)
    {
      cluster.CloseIoctx();
      cluster.Shutdown();
    }

    // ------------------------------------------------------ argument vectors

    /** ceph_args. */
    method CephArgs() returns (args: seq<string>)
      ensures CephFlags(args, rbdUser, cephConf)
    {
      args := [];
      if rbdUser.Some? && rbdUser.value != "" {
        args := args + ["--id", rbdUser.value];
      }
      if cephConf != "" {
        args := args + ["--conf", cephConf];
      }
      assert args == [] || args[2..] == [] || args[2..] == ["--conf", cephConf];
    }

    /** The command get_mon_addrs runs before parsing its output. */
    method MonDumpArgv() returns (argv: seq<string>)
      ensures |argv| >= 4 && argv[..4] == ["ceph", "mon", "dump", "--format=json"]
      ensures CephFlags(argv[4..], rbdUser, cephConf)
    {
      var ceph := CephArgs();
      argv := ["ceph", "mon", "dump", "--format=json"] + ceph;
      assert argv[4..] == ceph;
    }

    /**
     * The command import_image runs: the volume goes to the driver's pool, in
     * the new format when the bindings support layering.
     */
    method ImportImageArgv(base: string, name: string) returns (argv: seq<string>)
      ensures |argv| >= 6 && argv[..6] == ["rbd", "import", "--pool", defaultPool, base, name]
      ensures var k := if layering then 7 else 6;
                && |argv| >= k && (layering ==> argv[6] == "--new-format")
                && CephFlags(argv[k..], rbdUser, cephConf)
    {
      var args := ["--pool", defaultPool, base, name];
      if layering {
        args := args + ["--new-format"];
      }
      var ceph := CephArgs();
      args := args + ceph;
      argv := ["rbd", "import"] + args;
      assert argv[(if layering then 7 else 6)..] == ceph;
    }

    // ------------------------------------------------------- pool operations

    /** _get_fsid: the cluster id, read through a client on the driver's pool. */
    method GetFsid() returns (r: Result<string, Error>)
      requires cluster.Valid()
      modifies cluster
      ensures cluster.pools == old(cluster.pools) && cluster.Held() == old(cluster.Held())
      ensures r == old(FsidResult())
      ensures cluster.calls == old(cluster.calls) + if r.Ok? then [Call.GetFsid] else []
    {
      var c := RadosClient.Open(this, None);
      if c.Err? {
        return Err(c.error);
      }
      var client := c.value;
      var id := cluster.GetFsid();
      client.Exit();
      return Ok(id);
    }

    /** get_pool_info. */
    method GetPoolInfo() returns (r: Result<PoolInfo, Error>)
      requires cluster.Valid()
      modifies cluster
      ensures cluster.pools == old(cluster.pools) && cluster.Held() == old(cluster.Held())
      ensures r == if old(Connected(None)).Ok? then Ok(PoolInfoOf(cluster.stats)) else Err(Native(RadosError))
      ensures cluster.calls == old(cluster.calls) + if r.Ok? then [Call.GetClusterStats] else []
    {
      var c := RadosClient.Open(this, None);
      if c.Err? {
        return Err(c.error);
      }
      var client := c.value;
      var stats := cluster.GetClusterStats();
      client.Exit();
      return Ok(PoolInfoOf(stats));
    }

    // ------------------------------------------------------ volume operations

    /** size: the size of a volume in the driver's pool. */
    method Size(name: string) returns (r: Result<nat, Error>)
      requires cluster.Valid()
      modifies cluster
      ensures cluster.pools == old(cluster.pools) && cluster.Held() == old(cluster.Held())
      ensures var o := old(OpenResult(name, None, None, false));
        && r == (if o.Err? then Err(o.error) else Ok(Lookup(old(cluster.pools), o.value.pool, name).value.size))
        && cluster.calls == old(cluster.calls) + old(OpenCalls(name, None, None, false))
                              + (if o.Ok? then [Call.Size(o.value), Call.Close(o.value)] else [])
    {
      var p := VolumeProxy.Open(this, name, None, None, false);
      if p.Err? {
        return Err(p.error);
      }
      var vol := p.value;
      var s := cluster.Size(vol.volume);
      vol.Exit();
      match s
      case Ok(n) => r := Ok(n);
      case Err(e) => r := Err(Native(e));
    }

    /** resize: sets the size of a volume in the driver's pool, nothing else. */
    method Resize(name: string, size: nat) returns (r: Result<(), Error>)
      requires cluster.Valid()
      modifies cluster
      ensures cluster.Valid() && cluster.Held() == old(cluster.Held())
      ensures var o := old(OpenResult(name, None, None, false));
        && (o.Err? ==> r == Err(o.error) && cluster.pools == old(cluster.pools))
        && (o.Ok? ==>
              && r == Ok(())
              && cluster.pools == Store(old(cluster.pools), o.value.pool, name,
                                        Lookup(old(cluster.pools), o.value.pool, name).value.(size := size)))
        && cluster.calls == old(cluster.calls) + old(OpenCalls(name, None, None, false))
                              + (if o.Ok? then [Call.Resize(o.value, size), Call.Close(o.value)] else [])
    {
      var p := VolumeProxy.Open(this, name, None, None, false);
      if p.Err? {
        return Err(p.error);
      }
      var vol := p.value;
      var s := cluster.Resize(vol.volume, size);
      vol.Exit();
      match s
      case Ok(_) => r := Ok(());
      case Err(e) => r := Err(Native(e));
    }

    /**
     * create_snap: creates the snapshot and, when `protect` is set and it is
     * not protected yet, protects it. An existing snapshot of that name is
     * refused by the create call, before any protection step.
     */
    method CreateSnap(volume: string, name: string, pool: Option<string>, protect: bool) returns (r: Result<(), Error>)
      requires cluster.Valid()
      modifies cluster
      ensures cluster.Valid() && cluster.Held() == old(cluster.Held())
      ensures var o := old(OpenResult(volume, pool, None, false));
        o.Err? ==> && r == Err(o.error) && cluster.pools == old(cluster.pools)
                   && cluster.calls == old(cluster.calls) + old(OpenCalls(volume, pool, None, false))
      ensures var o := old(OpenResult(volume, pool, None, false));
        o.Ok? ==>
          var img := o.value;
          var v := Lookup(old(cluster.pools), img.pool, volume).value;
          var head := old(cluster.calls) + [Call.Open(img.pool, volume, None, false)];
          && (HasSnap(v.snaps, name) ==>
                && r == Err(Native(ImageExists)) && cluster.pools == old(cluster.pools)
                && cluster.calls == head + [Call.CreateSnap(img, name), Call.Close(img)])
          && (!HasSnap(v.snaps, name) ==>
                && r == Ok(())
                && cluster.pools == Store(old(cluster.pools), img.pool, volume,
                                          v.(snaps := v.snaps + [Snap(name, protect)]))
                && cluster.calls == head + CreateSnapCalls(img, name, protect) + [Call.Close(img)])
    {
      var p := VolumeProxy.Open(this, volume, pool, None, false);
      if p.Err? {
        return Err(p.error);
      }
      var vol := p.value;
      r := CreateSnapOn(vol.volume, name, protect);
      vol.Exit();
    }

    /** The calls create_snap makes on the open image after creating a fresh snapshot. */
    static function CreateSnapCalls(img: Image, name: string, protect: bool): seq<Call> {
      [Call.CreateSnap(img, name)]
        + (if protect then [Call.IsProtectedSnap(img, name), Call.ProtectSnap(img, name)] else [])
    }

    /** The body of create_snap's `with` block, on the open image `img`. */
    method CreateSnapOn(img: Image, name: string, protect: bool) returns (r: Result<(), Error>)
      requires cluster.Valid()
      requires Lookup(cluster.pools, img.pool, img.name).Some? && !img.readOnly
      modifies cluster
      ensures cluster.Valid() && cluster.Held() == old(cluster.Held())
      ensures var v := Lookup(old(cluster.pools), img.pool, img.name).value;
        && (HasSnap(v.snaps, name) ==>
              && r == Err(Native(ImageExists)) && cluster.pools == old(cluster.pools)
              && cluster.calls == old(cluster.calls) + [Call.CreateSnap(img, name)])
        && (!HasSnap(v.snaps, name) ==>
              && r == Ok(())
              && cluster.pools == Store(old(cluster.pools), img.pool, img.name,
                                        v.(snaps := v.snaps + [Snap(name, protect)]))
              && cluster.calls == old(cluster.calls) + CreateSnapCalls(img, name, protect))
    {
      ghost var m0 := cluster.pools;
      ghost var v := Lookup(m0, img.pool, img.name).value;
      var c := cluster.CreateSnap(img, name);
      match c
      case Err(e) =>
        r := Err(Native(e));
      case Ok(_) =>
        r := Ok(());
        if protect {
          ghost var m1 := cluster.pools;
          ghost var log1 := cluster.calls;
          r := ProtectCreated(img, name, v);
          StoreStore(m0, img.pool, img.name, v.(snaps := v.snaps + [Snap(name, false)]),
                     v.(snaps := v.snaps + [Snap(name, true)]));
          assert log1 + [Call.IsProtectedSnap(img, name), Call.ProtectSnap(img, name)]
              == old(cluster.calls) + CreateSnapCalls(img, name, true);
        }
    }

    /** The protection step of create_snap on a snapshot it has just created, unprotected. */
    method ProtectCreated(img: Image, name: string, ghost v: Volume) returns (r: Result<(), Error>)
      requires cluster.Valid() && !img.readOnly && !HasSnap(v.snaps, name)
      requires Lookup(cluster.pools, img.pool, img.name) == Some(v.(snaps := v.snaps + [Snap(name, false)]))
      modifies cluster
      ensures cluster.Valid() && cluster.Held() == old(cluster.Held()) && r == Ok(())
      ensures cluster.pools == Store(old(cluster.pools), img.pool, img.name, v.(snaps := v.snaps + [Snap(name, true)]))
      ensures cluster.calls == old(cluster.calls) + [Call.IsProtectedSnap(img, name), Call.ProtectSnap(img, name)]
    {
      AppendSnap(v.snaps, name, false);
      AppendSnap(v.snaps, name, true);
      r := ProtectUnlessProtected(img, name);
    }

    /**
     * `if not vol.is_protected_snap(name): vol.protect_snap(name)`: protection
     * is asked for only when the snapshot is not protected already.
     */
    method ProtectUnlessProtected(img: Image, name: string) returns (r: Result<(), Error>)
      requires cluster.Valid()
      requires Lookup(cluster.pools, img.pool, img.name).Some? && !img.readOnly
      requires HasSnap(Lookup(cluster.pools, img.pool, img.name).value.snaps, name)
      modifies cluster
      ensures cluster.Valid() && cluster.Held() == old(cluster.Held()) && r == Ok(())
      ensures var v := Lookup(old(cluster.pools), img.pool, img.name).value;
        && (SnapProtected(v.snaps, name) ==>
              cluster.pools == old(cluster.pools) && cluster.calls == old(cluster.calls) + [Call.IsProtectedSnap(img, name)])
        && (!SnapProtected(v.snaps, name) ==>
              && cluster.pools == Store(old(cluster.pools), img.pool, img.name,
                                        v.(snaps := SetProtection(v.snaps, name, true)))
              && cluster.calls == old(cluster.calls) + [Call.IsProtectedSnap(img, name), Call.ProtectSnap(img, name)])
    {
      r := Ok(());
      var prot := cluster.IsProtectedSnap(img, name);
      match prot
      case Err(e) =>
        r := Err(Native(e));
      case Ok(b) =>
        if !b {
          var pr := cluster.ProtectSnap(img, name);
          match pr
          case Err(e) => r := Err(Native(e));
          case Ok(_) => {}
        }
    }

    /**
     * remove_snap. A snapshot that is absent is left alone; an unprotected one
     * is removed; a protected one is unprotected and removed under `force`,
     * skipped without `force` and without `ignore_errors`, and, with
     * `ignore_errors` but no `force`, handed to the remove call, whose busy
     * refusal escapes.
     */
    method RemoveSnap(volume: string, name: string, ignoreErrors: bool, pool: Option<string>, force: bool)
      returns (r: Result<(), Error>)
      requires cluster.Valid()
      modifies cluster
      ensures cluster.Valid() && cluster.Held() == old(cluster.Held())
      ensures var o := old(OpenResult(volume, pool, None, false));
        o.Err? ==> && r == Err(o.error) && cluster.pools == old(cluster.pools)
                   && cluster.calls == old(cluster.calls) + old(OpenCalls(volume, pool, None, false))
      ensures var o := old(OpenResult(volume, pool, None, false));
        o.Ok? ==>
          var img := o.value;
          var v := Lookup(old(cluster.pools), img.pool, volume).value;
          var removed := Store(old(cluster.pools), img.pool, volume, v.(snaps := Without(v.snaps, name)));
          && r == RemoveSnapResult(v.snaps, name, ignoreErrors, force)
          && cluster.pools == (if RemovesSnap(v.snaps, name, ignoreErrors, force) then removed else old(cluster.pools))
          && cluster.calls == old(cluster.calls) + [Call.Open(img.pool, volume, None, false)]
                                + RemoveSnapCalls(img, v.snaps, name, ignoreErrors, force) + [Call.Close(img)]
    {
      var p := VolumeProxy.Open(this, volume, pool, None, false);
      if p.Err? {
        return Err(p.error);
      }
      var vol := p.value;
      r := RemoveSnapOn(vol.volume, name, ignoreErrors, force);
      vol.Exit();
    }

    /** Whether remove_snap takes the snapshot away. */
    static predicate RemovesSnap(snaps: seq<Snap>, name: string, ignoreErrors: bool, force: bool) {
      HasSnap(snaps, name) && (!SnapProtected(snaps, name) || force)
    }

    /** What remove_snap returns: only a protected snapshot under ignore_errors without force fails, as busy. */
    static function RemoveSnapResult(snaps: seq<Snap>, name: string, ignoreErrors: bool, force: bool): Result<(), Error> {
      if SnapProtected(snaps, name) && !force && ignoreErrors then Err(Native(ImageBusy)) else Ok(())
    }

    /** The calls remove_snap makes on the open image. */
    static function RemoveSnapCalls(img: Image, snaps: seq<Snap>, name: string, ignoreErrors: bool, force: bool)
      : seq<Call>
    {
      [Call.ListSnaps(img)] + (if HasSnap(snaps, name) then ListedSnapCalls(img, snaps, name, ignoreErrors, force) else [])
    }

    /** The calls remove_snap makes once list_snaps has named the snapshot. */
    static function ListedSnapCalls(img: Image, snaps: seq<Snap>, name: string, ignoreErrors: bool, force: bool)
      : seq<Call>
    {
      var prot := SnapProtected(snaps, name);
      var unprotect := if prot && force then [Call.UnprotectSnap(img, name)] else [];
      var remove := if prot && !force && !ignoreErrors then [] else [Call.RemoveSnap(img, name)];
      [Call.IsProtectedSnap(img, name)] + unprotect + remove
    }

    /** The body of remove_snap's `with` block, on the open image `img`. */
    method RemoveSnapOn(img: Image, name: string, ignoreErrors: bool, force: bool) returns (r: Result<(), Error>)
      requires cluster.Valid()
      requires Lookup(cluster.pools, img.pool, img.name).Some? && !img.readOnly
      modifies cluster
      ensures cluster.Valid() && cluster.Held() == old(cluster.Held())
      ensures var v := Lookup(old(cluster.pools), img.pool, img.name).value;
        && r == RemoveSnapResult(v.snaps, name, ignoreErrors, force)
        && cluster.pools == (if RemovesSnap(v.snaps, name, ignoreErrors, force)
                             then Store(old(cluster.pools), img.pool, img.name, v.(snaps := Without(v.snaps, name)))
                             else old(cluster.pools))
        && cluster.calls == old(cluster.calls) + RemoveSnapCalls(img, v.snaps, name, ignoreErrors, force)
    {
      ghost var v := Lookup(cluster.pools, img.pool, img.name).value;
      SnapNamesHas(v.snaps, name);
      r := Ok(());
      var listed := cluster.ListSnaps(img);
      match listed
      case Err(e) =>
        r := Err(Native(e));
      case Ok(names) =>
        if name in names {
          ghost var log1 := cluster.calls;
          r := RemoveListedSnap(img, name, ignoreErrors, force);
          assert cluster.calls == old(cluster.calls) + RemoveSnapCalls(img, v.snaps, name, ignoreErrors, force);
        }
    }

    /** remove_snap on a snapshot list_snaps has named: the protection check, then unprotect and remove. */
    method RemoveListedSnap(img: Image, name: string, ignoreErrors: bool, force: bool) returns (r: Result<(), Error>)
      requires cluster.Valid()
      requires Lookup(cluster.pools, img.pool, img.name).Some? && !img.readOnly
      requires HasSnap(Lookup(cluster.pools, img.pool, img.name).value.snaps, name)
      modifies cluster
      ensures cluster.Valid() && cluster.Held() == old(cluster.Held())
      ensures var v := Lookup(old(cluster.pools), img.pool, img.name).value;
        && r == RemoveSnapResult(v.snaps, name, ignoreErrors, force)
        && cluster.pools == (if RemovesSnap(v.snaps, name, ignoreErrors, force)
                             then Store(old(cluster.pools), img.pool, img.name, v.(snaps := Without(v.snaps, name)))
                             else old(cluster.pools))
        && cluster.calls == old(cluster.calls) + ListedSnapCalls(img, v.snaps, name, ignoreErrors, force)
    {
      r := Ok(());
      var prot := cluster.IsProtectedSnap(img, name);
      match prot
      case Err(e) =>
        r := Err(Native(e));
      case Ok(isProtected) =>
        if isProtected && force {
          r := UnprotectAndRemove(img, name);
        } else if !isProtected || ignoreErrors {
          var rm := cluster.RemoveSnap(img, name);
          match rm
          case Err(e) => r := Err(Native(e));
          case Ok(_) => {}
        }
    }

    /** The `force` path of remove_snap on a protected snapshot: unprotect, then remove. */
    method UnprotectAndRemove(img: Image, name: string) returns (r: Result<(), Error>)
      requires cluster.Valid()
      requires Lookup(cluster.pools, img.pool, img.name).Some? && !img.readOnly
      requires HasSnap(Lookup(cluster.pools, img.pool, img.name).value.snaps, name)
      requires SnapProtected(Lookup(cluster.pools, img.pool, img.name).value.snaps, name)
      modifies cluster
      ensures cluster.Valid() && cluster.Held() == old(cluster.Held()) && r == Ok(())
      ensures var v := Lookup(old(cluster.pools), img.pool, img.name).value;
        cluster.pools == Store(old(cluster.pools), img.pool, img.name, v.(snaps := Without(v.snaps, name)))
      ensures cluster.calls == old(cluster.calls) + [Call.UnprotectSnap(img, name), Call.RemoveSnap(img, name)]
    {
      UnprotectThenRemove(cluster.pools, img, name);
      r := Ok(());
      var u := cluster.UnprotectSnap(img, name);
      match u
      case Err(e) =>
        r := Err(Native(e));
      case Ok(_) =>
        var rm := cluster.RemoveSnap(img, name);
        match rm
        case Err(e) => r := Err(Native(e));
        case Ok(_) => {}
    }

    /**
     * parent_info: the parent link of a volume. A missing volume and a volume
     * without a parent are both reported as "no usable parent snapshot".
     */
    method ParentInfo(volume: string, pool: Option<string>) returns (r: Result<Parent, Error>)
      requires cluster.Valid()
      modifies cluster
      ensures cluster.pools == old(cluster.pools) && cluster.Held() == old(cluster.Held())
      ensures var o := old(OpenResult(volume, pool, None, false));
        && r == (match o
                 case Err(e) => if e == Native(ImageNotFound) then Err(ImageUnacceptable(NoUsableParent)) else Err(e)
                 case Ok(img) =>
                   match Lookup(old(cluster.pools), img.pool, volume).value.parent
                   case None => Err(ImageUnacceptable(NoUsableParent))
                   case Some(par) => Ok(par))
        && cluster.calls == old(cluster.calls) + old(OpenCalls(volume, pool, None, false))
                              + (if o.Ok? then [Call.ParentInfo(o.value), Call.Close(o.value)] else [])
    {
      var p := VolumeProxy.Open(this, volume, pool, None, false);
      if p.Err? {
        return if p.error == Native(ImageNotFound) then Err(ImageUnacceptable(NoUsableParent)) else Err(p.error);
      }
      var vol := p.value;
      var info := cluster.ParentInfo(vol.volume);
      vol.Exit();
      match info
      case Ok(par) => r := Ok(par);
      case Err(e) => r := if e == ImageNotFound then Err(ImageUnacceptable(NoUsableParent)) else Err(Native(e));
    }

    /** flatten: detaches a cloned volume from its parent; a volume without one is refused. */
    method Flatten(volume: string, pool: Option<string>) returns (r: Result<(), Error>)
      requires cluster.Valid()
      modifies cluster
      ensures cluster.Valid() && cluster.Held() == old(cluster.Held())
      ensures var o := old(OpenResult(volume, pool, None, false));
        && (o.Err? ==> r == Err(o.error) && cluster.pools == old(cluster.pools))
        && (o.Ok? ==>
              var v := Lookup(old(cluster.pools), o.value.pool, volume).value;
              && (v.parent.None? ==> r == Err(Native(InvalidArgument)) && cluster.pools == old(cluster.pools))
              && (v.parent.Some? ==>
                    r == Ok(()) && cluster.pools == Store(old(cluster.pools), o.value.pool, volume, v.(parent := None))))
        && cluster.calls == old(cluster.calls) + old(OpenCalls(volume, pool, None, false))
                              + (if o.Ok? then [Call.Flatten(o.value), Call.Close(o.value)] else [])
    {
      var p := VolumeProxy.Open(this, volume, pool, None, false);
      if p.Err? {
        return Err(p.error);
      }
      var vol := p.value;
      var f := cluster.Flatten(vol.volume);
      vol.Exit();
      match f
      case Ok(_) => r := Ok(());
      case Err(e) => r := Err(Native(e));
    }

    /** exists: probes the volume (and snapshot) with a read-only open. */
    method Exists(name: string, pool: Option<string>, snapshot: Option<string>) returns (r: Result<bool, Error>)
      requires cluster.Valid()
      modifies cluster
      ensures cluster.pools == old(cluster.pools) && cluster.Held() == old(cluster.Held())
      ensures r == old(ExistsResult(name, pool, snapshot))
      ensures cluster.calls == old(cluster.calls) + old(ProbeCalls(name, pool, snapshot))
    {
      var p := VolumeProxy.Open(this, name, pool, snapshot, true);
      match p
      case Err(e) =>
        r := if e == Native(ImageNotFound) then Ok(false) else Err(e);
      case Ok(vol) =>
        vol.Exit();
        r := Ok(true);
    }

    /**
     * is_cloneable: the location must parse, name this cluster, hold a raw
     * image, and its snapshot must open read-only. The cluster is asked for its
     * id only once the location parses, and the image is probed only once the
     * id and the format match.
     */
    method IsCloneable(url: string, diskFormat: string) returns (r: Result<bool, Error>)
      requires cluster.Valid()
      modifies cluster
      ensures cluster.pools == old(cluster.pools) && cluster.Held() == old(cluster.Held())
      ensures var parsed := ParseUrl(url);
        r == CloneableVerdict(parsed, old(FsidResult()), diskFormat,
               if parsed.Ok?
               then old(ExistsResult(parsed.value.image, Some(parsed.value.pool), Some(parsed.value.snapshot)))
               else Ok(false))
      ensures var parsed := ParseUrl(url);
        var probe := if parsed.Ok? && cluster.fsid == parsed.value.fsid && diskFormat == "raw"
                     then old(ProbeCalls(parsed.value.image, Some(parsed.value.pool), Some(parsed.value.snapshot)))
                     else [];
        var asked := parsed.Ok? && old(FsidResult()).Ok?;
        cluster.calls == old(cluster.calls) + (if asked then [Call.GetFsid] + probe else [])
    {
      var parsed := ParseUrl(url);
      if parsed.Err? {
        return Ok(false);
      }
      var loc := parsed.value;
      var id := GetFsid();
      if id.Err? {
        return Err(id.error);
      }
      if id.value != loc.fsid {
        return Ok(false);
      }
      if diskFormat != "raw" {
        return Ok(false);
      }
      var e := Exists(loc.image, Some(loc.pool), Some(loc.snapshot));
      match e
      case Ok(b) => r := Ok(b);
      case Err(err) => r := if err.Native? && IsRbdError(err.native) then Ok(false) else Err(err);
    }

    /**
     * clone: a layered child of the location's snapshot, named `destName` in
     * `destPool`. A permission refusal is reported as Forbidden on the
     * destination pool; bindings without layering fail before the clone call.
     */
    method Clone(url: string, destName: string, destPool: Option<string>) returns (r: Result<(), Error>)
      requires cluster.Valid()
      modifies cluster
      ensures cluster.Valid() && cluster.Held() == old(cluster.Held())
      ensures ParseUrl(url).Err? ==>
                && r == Err(ImageUnacceptable(Rejected(ParseUrl(url).error)))
                && cluster.pools == old(cluster.pools) && cluster.calls == old(cluster.calls)
      ensures ParseUrl(url).Ok? ==>
        var loc := ParseUrl(url).value;
        var src := old(Connected(Some(loc.pool)));
        var dst := old(Connected(destPool));
        && (src.Err? || dst.Err? || !layering ==>
              && r == Err(if src.Err? then src.error else if dst.Err? then dst.error else NoLayering)
              && cluster.pools == old(cluster.pools) && cluster.calls == old(cluster.calls))
        && (src.Ok? && dst.Ok? && layering ==>
              var step := CloneStep(old(cluster.pools), cluster.denied, loc.pool, loc.image, loc.snapshot,
                                    dst.value, destName);
              && cluster.pools == step.1
              && cluster.calls == old(cluster.calls) + [Call.Clone(loc.pool, loc.image, loc.snapshot, dst.value, destName)]
              && r == CloneOutcome(step.0, destPool))
    {
      var parsed := ParseUrl(url);
      if parsed.Err? {
        return Err(ImageUnacceptable(Rejected(parsed.error)));
      }
      var loc := parsed.value;
      var s := RadosClient.Open(this, Some(loc.pool));
      if s.Err? {
        return Err(s.error);
      }
      var srcClient := s.value;
      var d := RadosClient.Open(this, destPool);
      if d.Err? {
        srcClient.Exit();
        return Err(d.error);
      }
      var destClient := d.value;
      r := CloneWithin(loc, destClient.ioctx, destName, destPool);
      destClient.Exit();
      srcClient.Exit();
    }

    /** What clone reports for the outcome of the clone call: a permission refusal names the destination pool. */
    static function CloneOutcome(o: Outcome<()>, destPool: Option<string>): (r: Result<(), Error>)
      ensures r.Ok? <==> o.Ok?
      ensures o == Err(PermissionError) ==> r == Err(Forbidden(destPool))
      ensures o.Err? && o.error != PermissionError ==> r == Err(Native(o.error))
    {
      match o
      case Ok(_) => Ok(())
      case Err(e) => if e == PermissionError then Err(Forbidden(destPool)) else Err(Native(e))
    }

    /** The body of clone's two `with` blocks: the layering check, then the clone call. */
    method CloneWithin(loc: Location, dest: string, destName: string, destPool: Option<string>) returns (r: Result<(), Error>)
      requires cluster.Valid()
      modifies cluster
      ensures cluster.Valid() && cluster.Held() == old(cluster.Held())
      ensures !layering ==> r == Err(NoLayering) && cluster.pools == old(cluster.pools) && cluster.calls == old(cluster.calls)
      ensures layering ==>
        var step := CloneStep(old(cluster.pools), cluster.denied, loc.pool, loc.image, loc.snapshot, dest, destName);
        && cluster.pools == step.1
        && cluster.calls == old(cluster.calls) + [Call.Clone(loc.pool, loc.image, loc.snapshot, dest, destName)]
        && r == CloneOutcome(step.0, destPool)
    {
      if !layering {
        return Err(NoLayering);
      }
      var c := cluster.Clone(loc.pool, loc.image, loc.snapshot, dest, destName);
      r := CloneOutcome(c, destPool);
    }

    // ---------------------------------------------------------- destruction

    /**
     * _cleanup_vol: one remove attempt. Success ends the loop; busy or
     * has-snapshots spends one retry and ends the loop, timed out, once the
     * budget is gone; any other error escapes.
     */
    method CleanupVol(ioctx: string, volume: string, ctx: RetryContext) returns (s: Signal)
      requires cluster.Valid()
      modifies cluster, ctx
      ensures cluster.Valid() && cluster.Held() == old(cluster.Held())
      ensures var step := RemoveStep(old(cluster.pools), cluster.Refuses(ioctx, volume), ioctx, volume);
        s == CleanupStep(step.0, old(ctx.retries)) && cluster.pools == step.1
      ensures cluster.calls == old(cluster.calls) + [Call.Remove(ioctx, volume)]
      ensures s.Continue? || s.Done? ==> ctx.retries == s.retries
    {
      var rr := cluster.Remove(ioctx, volume);
      match rr
      case Ok(_) =>
        return Done(false, ctx.retries);
      case Err(e) =>
        if !Retryable(e) {
          return Raised(e);
        }
        ctx.retries := ctx.retries - 1;
        if ctx.retries <= 0 {
          return Done(true, ctx.retries);
        }
        return Continue(ctx.retries);
    }

    /**
     * _destroy_volume: _cleanup_vol under the looping call, then once more if
     * the loop timed out. Its result, its calls and the volume it leaves are
     * those of DestroyRun over the outcomes the cluster reports.
     */
    method DestroyWithin(ioctx: string, volume: string) returns (r: Result<(), Error>)
      requires cluster.Valid()
      modifies cluster
      ensures cluster.Valid() && cluster.Held() == old(cluster.Held())
      ensures var v0 := Lookup(old(cluster.pools), ioctx, volume);
        var d := DestroyRun(Outcomes(v0, cluster.Refuses(ioctx, volume)));
        && r == (if d.result.Ok? then Ok(()) else Err(Native(d.result.error)))
        && cluster.calls == old(cluster.calls) + Repeat(Call.Remove(ioctx, volume), d.attempts)
        && cluster.pools == Put(old(cluster.pools), ioctx, volume, AfterAttempts(v0, cluster.Refuses(ioctx, volume), d.attempts))
    {
      ghost var m0 := cluster.pools;
      ghost var v0 := Lookup(m0, ioctx, volume);
      ghost var den := cluster.Refuses(ioctx, volume);
      var ctx := new RetryContext(Budget);
      var s, n := TimedLoop(ioctx, volume, ctx);
      LoopExit(v0, den, n, s);
      match s
      case Raised(e) =>
        r := Err(Native(e));
      case Done(timedOut, _) =>
        r := Ok(());
        if timedOut {
          RepeatSnoc(old(cluster.calls), Call.Remove(ioctx, volume), n);
          var extra := AttemptFrom(ioctx, volume, ctx, m0, v0, den, n);
          match extra
          case Raised(e) => r := Err(Native(e));
          case _ => {}
        }
    }

    /**
     * The looping call of _destroy_volume: _cleanup_vol until it stops asking
     * for another round. It stops after `n` attempts, at most ten, all but the
     * last of them busy.
     */
    method TimedLoop(ioctx: string, volume: string, ctx: RetryContext) returns (s: Signal, ghost n: nat)
      requires cluster.Valid() && ctx.retries == Budget
      modifies cluster, ctx
      ensures cluster.Valid() && cluster.Held() == old(cluster.Held())
      ensures var v0 := Lookup(old(cluster.pools), ioctx, volume);
        && 1 <= n <= 10 && BusyBefore(v0, cluster.Refuses(ioctx, volume), n - 1) && !s.Continue?
        && s == CleanupStep(AttemptOutcome(v0, cluster.Refuses(ioctx, volume), n - 1), Budget - (n - 1))
        && cluster.pools == Put(old(cluster.pools), ioctx, volume, AfterAttempts(v0, cluster.Refuses(ioctx, volume), n))
      ensures s.Done? ==> ctx.retries == s.retries
      ensures cluster.calls == old(cluster.calls) + Repeat(Call.Remove(ioctx, volume), n)
    {
      ghost var m0 := cluster.pools;
      ghost var v0 := Lookup(m0, ioctx, volume);
      ghost var den := cluster.Refuses(ioctx, volume);
      PutSame(m0, ioctx, volume);
      RepeatSnoc(cluster.calls, Call.Remove(ioctx, volume), 0);
      ghost var k: nat := 0;
      s := AttemptFrom(ioctx, volume, ctx, m0, v0, den, k);
      while s.Continue?
        invariant cluster.Valid() && cluster.Held() == old(cluster.Held())
        invariant k < 10 && BusyBefore(v0, den, k)
        invariant s == CleanupStep(AttemptOutcome(v0, den, k), Budget - k)
        invariant s.Continue? || s.Done? ==> ctx.retries == s.retries
        invariant cluster.calls == old(cluster.calls) + Repeat(Call.Remove(ioctx, volume), k + 1)
        invariant cluster.pools == Put(m0, ioctx, volume, AfterAttempts(v0, den, k + 1))
        decreases 10 - k
      {
        LoopContinues(v0, den, k, s);
        RepeatSnoc(old(cluster.calls), Call.Remove(ioctx, volume), k + 1);
        k := k + 1;
        s := AttemptFrom(ioctx, volume, ctx, m0, v0, den, k);
      }
      n := k + 1;
    }

    /**
     * _cleanup_vol as attempt `n` of the destroyer on a volume that started as
     * `v0` = Lookup(m0, ioctx, volume): it reports what AttemptOutcome says
     * and leaves the volume of `n + 1` attempts.
     */
    method AttemptFrom(ioctx: string, volume: string, ctx: RetryContext, ghost m0: map<string, Pool>,
                       ghost v0: Option<Volume>, ghost den: bool, ghost n: nat) returns (s: Signal)
      requires cluster.Valid() && v0 == Lookup(m0, ioctx, volume) && den == cluster.Refuses(ioctx, volume)
      requires ctx.retries == Budget - n
      requires n == 0 || IsRetryable(AttemptOutcome(v0, den, n - 1))
      requires cluster.pools == Put(m0, ioctx, volume, AfterAttempts(v0, den, n))
      modifies cluster, ctx
      ensures cluster.Valid() && cluster.Held() == old(cluster.Held())
      ensures s == CleanupStep(AttemptOutcome(v0, den, n), Budget - n)
      ensures cluster.pools == Put(m0, ioctx, volume, AfterAttempts(v0, den, n + 1))
      ensures cluster.calls == old(cluster.calls) + [Call.Remove(ioctx, volume)]
      ensures s.Continue? || s.Done? ==> ctx.retries == s.retries
    {
      AttemptStep(m0, den, ioctx, volume, n);
      ghost var outcome := AttemptOutcome(v0, den, n);
      assert RemoveStep(cluster.pools, den, ioctx, volume).0 == outcome;
      s := CleanupVol(ioctx, volume, ctx);
      assert s == CleanupStep(outcome, Budget - n);
    }

    /**
     * destroy_volume: _destroy_volume through a client on `pool`. On an
     * existing volume the client may remove it never fails and leaves what
     * DestroyEffect says; otherwise the error of the single attempt escapes.
     */
    method DestroyVolume(volume: string, pool: Option<string>) returns (r: Result<(), Error>)
      requires cluster.Valid()
      modifies cluster
      ensures cluster.Valid() && cluster.Held() == old(cluster.Held())
      ensures var c := old(Connected(pool));
        c.Err? ==> r == Err(c.error) && cluster.pools == old(cluster.pools) && cluster.calls == old(cluster.calls)
      ensures var c := old(Connected(pool));
        c.Ok? ==>
          var v0 := Lookup(old(cluster.pools), c.value, volume);
          var d := DestroyRun(Outcomes(v0, cluster.Refuses(c.value, volume)));
          && r == (if d.result.Ok? then Ok(()) else Err(Native(d.result.error)))
          && cluster.calls == old(cluster.calls) + Repeat(Call.Remove(c.value, volume), d.attempts)
          && cluster.pools == Put(old(cluster.pools), c.value, volume,
                                  AfterAttempts(v0, cluster.Refuses(c.value, volume), d.attempts))
      ensures var c := old(Connected(pool));
        c.Ok? ==>
          var v0 := Lookup(old(cluster.pools), c.value, volume);
          && (cluster.Refuses(c.value, volume) ==> r == Err(Native(PermissionError)) && cluster.pools == old(cluster.pools))
          && (!cluster.Refuses(c.value, volume) && v0.None? ==> r == Err(Native(ImageNotFound)) && cluster.pools == old(cluster.pools))
          && (!cluster.Refuses(c.value, volume) && v0.Some? ==>
                && r == Ok(())
                && cluster.pools == Put(old(cluster.pools), c.value, volume, DestroyEffect(v0.value))
                && cluster.calls == old(cluster.calls) + Repeat(Call.Remove(c.value, volume), DestroyAttempts(v0.value)))
    {
      ghost var m0 := cluster.pools;
      var c := RadosClient.Open(this, pool);
      if c.Err? {
        return Err(c.error);
      }
      var client := c.value;
      var v0 := Lookup(m0, client.ioctx, volume);
      if cluster.Refuses(client.ioctx, volume) || v0.None? {
        DestroyRefused(v0, cluster.Refuses(client.ioctx, volume));
        PutSame(m0, client.ioctx, volume);
      } else {
        DestroyExisting(v0.value);
      }
      r := DestroyWithin(client.ioctx, volume);
      client.Exit();
    }

    /**
     * cleanup_volumes: the volumes of the driver's pool whose names start with
     * the instance uuid are destroyed one by one, in listing order, until one
     * raises. Only those before the first volume the client may not remove
     * are destroyed; that volume and every later one, and every other volume,
     * stay as they were (DestroyAllEffect, DestroyAllUntouched).
     */
    method CleanupVolumes(uuid: string) returns (r: Result<(), Error>)
      requires cluster.Valid()
      modifies cluster
      ensures cluster.Valid() && cluster.Held() == old(cluster.Held())
      ensures var c := old(Connected(Some(defaultPool)));
        c.Err? ==> r == Err(c.error) && cluster.pools == old(cluster.pools) && cluster.calls == old(cluster.calls)
      ensures var c := old(Connected(Some(defaultPool)));
        c.Ok? && c.value in cluster.denied ==>
          && r == Err(Native(PermissionError)) && cluster.pools == old(cluster.pools)
          && cluster.calls == old(cluster.calls) + [Call.List(c.value)]
      ensures var c := old(Connected(Some(defaultPool)));
        c.Ok? && c.value !in cluster.denied ==>
          var owned := Owned(uuid, old(cluster.pools)[c.value].names);
          var k := FirstRefused(cluster.denied, cluster.undeletable, c.value, owned);
          && r == (if k == |owned| then Ok(()) else Err(Native(PermissionError)))
          && cluster.pools == DestroyAll(old(cluster.pools), c.value, owned[..k])
          && cluster.calls == old(cluster.calls) + [Call.List(c.value)]
                                + DestroyAllCalls(old(cluster.pools), c.value, owned[..k])
                                + (if k < |owned| then [Call.Remove(c.value, owned[k])] else [])
    {
      var c := RadosClient.Open(this, Some(defaultPool));
      if c.Err? {
        return Err(c.error);
      }
      var client := c.value;
      var listing := cluster.List(client.ioctx);
      match listing {
        case Err(e) =>
          r := Err(Native(e));
        case Ok(names) =>
          var owned := Owned(uuid, names);
          assert cluster.pools[client.ioctx].WellFormed();
          OwnedDistinct(uuid, names);
          r := DestroyEach(client.ioctx, owned);
      }
      client.Exit();
    }

    /**
     * The loop of cleanup_volumes: _destroy_volume on each owned volume, in
     * order; the first error escapes and ends the loop.
     */
    method DestroyEach(pool: string, owned: seq<string>) returns (r: Result<(), Error>)
      requires cluster.Valid() && pool in cluster.pools && Distinct(owned)
      requires forall x :: x in owned ==> x in cluster.pools[pool].names
      modifies cluster
      ensures cluster.Valid() && cluster.Held() == old(cluster.Held())
      ensures var k := FirstRefused(cluster.denied, cluster.undeletable, pool, owned);
        && r == (if k == |owned| then Ok(()) else Err(Native(PermissionError)))
        && cluster.pools == DestroyAll(old(cluster.pools), pool, owned[..k])
        && cluster.calls == old(cluster.calls) + DestroyAllCalls(old(cluster.pools), pool, owned[..k])
                              + (if k < |owned| then [Call.Remove(pool, owned[k])] else [])
    {
      ghost var m0 := cluster.pools;
      ghost var c0 := cluster.calls;
      ghost var k := FirstRefused(cluster.denied, cluster.undeletable, pool, owned);
      r := Ok(());
      var i := 0;
      while i < |owned|
        invariant 0 <= i <= k
        invariant r == Ok(())
        invariant cluster.Valid() && cluster.Held() == old(cluster.Held())
        invariant cluster.pools == DestroyAll(m0, pool, owned[..i])
        invariant cluster.calls == c0 + DestroyAllCalls(m0, pool, owned[..i])
      {
        r := DestroyNext(pool, owned, i, m0, c0);
        if r.Err? {
          return;
        }
        i := i + 1;
      }
      assert owned[..|owned|] == owned;
    }

    /**
     * One round of the loop of cleanup_volumes: _destroy_volume on owned[i].
     * A volume the client may remove is destroyed, extending the state and
     * the log by it; otherwise the one refused attempt is logged and the
     * permission error escapes with nothing changed.
     */
    method DestroyNext(pool: string, owned: seq<string>, i: nat, ghost m0: map<string, Pool>, ghost c0: seq<Call>)
      returns (r: Result<(), Error>)
      requires pool in m0 && m0[pool].WellFormed() && Distinct(owned) && i < |owned|
      requires forall x :: x in owned ==> x in m0[pool].names
      requires cluster.Valid() && cluster.pools == DestroyAll(m0, pool, owned[..i])
      requires cluster.calls == c0 + DestroyAllCalls(m0, pool, owned[..i])
      modifies cluster
      ensures cluster.Valid() && cluster.Held() == old(cluster.Held())
      ensures cluster.Refuses(pool, owned[i]) ==>
                && r == Err(Native(PermissionError)) && cluster.pools == old(cluster.pools)
                && cluster.calls == old(cluster.calls) + [Call.Remove(pool, owned[i])]
      ensures !cluster.Refuses(pool, owned[i]) ==>
                && r == Ok(())
                && cluster.pools == DestroyAll(m0, pool, owned[..i + 1])
                && cluster.calls == c0 + DestroyAllCalls(m0, pool, owned[..i + 1])
    {
      ghost var cur := cluster.pools;
      CleanupOne(m0, pool, owned, i);
      if cluster.Refuses(pool, owned[i]) {
        DestroyRefused(Lookup(cur, pool, owned[i]), true);
        PutSame(cur, pool, owned[i]);
        assert Repeat(Call.Remove(pool, owned[i]), 1) == [Call.Remove(pool, owned[i])];
      }
      r := DestroyWithin(pool, owned[i]);
    }
  }

  /** RADOSClient: a client session with a context on one pool. */
  class RadosClient {
    const driver: RbdDriver
    /** The pool the context is bound to. */
    const ioctx: string

    constructor (driver: RbdDriver, ioctx: string)
      ensures this.driver == driver && this.ioctx == ioctx
    {
      this.driver := driver;
      this.ioctx := ioctx;
    }

    /** RADOSClient(driver, pool): connects, or lets the rados error escape. */
    static method Open(driver: RbdDriver, pool: Option<string>) returns (r: Result<RadosClient, Error>)
      modifies driver.cluster
      ensures driver.cluster.pools == old(driver.cluster.pools) && driver.cluster.calls == old(driver.cluster.calls)
      ensures var c := old(driver.Connected(pool));
        && (r.Ok? <==> c.Ok?)
        && (r.Ok? ==>
              && r.value.driver == driver && r.value.ioctx == c.value
              && driver.cluster.Held() ==
                   (old(driver.cluster.clients) + 1, old(driver.cluster.ioctxs) + 1, old(driver.cluster.images)))
        && (r.Err? ==> r.error == c.error && driver.cluster.Held() == old(driver.cluster.Held()))
    {
      var c := driver.ConnectToRados(pool);
      match c
      case Err(e) =>
        r := Err(e);
      case Ok(ioctx) =>
        var client := new RadosClient(driver, ioctx);
        r := Ok(client);
    }

    /** __exit__: disconnects. */
    method Exit()
      requires driver.cluster.clients > 0 && driver.cluster.ioctxs > 0
      modifies driver.cluster
      ensures driver.cluster.pools == old(driver.cluster.pools) && driver.cluster.calls == old(driver.cluster.calls)
      ensures driver.cluster.Held() ==
                (old(driver.cluster.clients) - 1, old(driver.cluster.ioctxs) - 1, old(driver.cluster.images))
    {
      driver.DisconnectFromRados();
    }
  }

  /** RBDVolumeProxy: an open image together with the session it was opened through. */
  class VolumeProxy {
    const driver: RbdDriver
    const ioctx: string
    const volume: Image

    constructor (driver: RbdDriver, ioctx: string, volume: Image)
      ensures this.driver == driver && this.ioctx == ioctx && this.volume == volume
    {
      this.driver := driver;
      this.ioctx := ioctx;
      this.volume := volume;
    }

    /**
     * RBDVolumeProxy(driver, name, pool, snapshot, read_only): connects, then
     * opens the image; when the open fails the session is given back before
     * the error escapes.
     */
    static method Open(driver: RbdDriver, name: string, pool: Option<string>, snapshot: Option<string>,
                       readOnly: bool) returns (r: Result<VolumeProxy, Error>)
      modifies driver.cluster
      ensures driver.cluster.pools == old(driver.cluster.pools)
      ensures driver.cluster.calls == old(driver.cluster.calls) + old(driver.OpenCalls(name, pool, snapshot, readOnly))
      ensures var o := old(driver.OpenResult(name, pool, snapshot, readOnly));
        && (r.Ok? <==> o.Ok?)
        && (r.Ok? ==>
              && r.value.driver == driver && r.value.volume == o.value && r.value.ioctx == o.value.pool
              && driver.cluster.Held() ==
                   (old(driver.cluster.clients) + 1, old(driver.cluster.ioctxs) + 1, old(driver.cluster.images) + 1))
        && (r.Err? ==> r.error == o.error && driver.cluster.Held() == old(driver.cluster.Held()))
    {
      var c := driver.ConnectToRados(pool);
      match c
      case Err(e) =>
        r := Err(e);
      case Ok(ioctx) =>
        var img := driver.cluster.Open(ioctx, name, NonEmpty(snapshot), readOnly);
        match img
        case Err(e) =>
          driver.DisconnectFromRados();
          r := Err(Native(e));
        case Ok(v) =>
          var proxy := new VolumeProxy(driver, ioctx, v);
          r := Ok(proxy);
    }

    /** __exit__: closes the image, then disconnects. */
    method Exit()
      requires driver.cluster.clients > 0 && driver.cluster.ioctxs > 0 && driver.cluster.images > 0
      modifies driver.cluster
      ensures driver.cluster.pools == old(driver.cluster.pools)
      ensures driver.cluster.calls == old(driver.cluster.calls) + [Call.Close(volume)]
      ensures driver.cluster.Held() ==
                (old(driver.cluster.clients) - 1, old(driver.cluster.ioctxs) - 1, old(driver.cluster.images) - 1)
    {
      driver.cluster.Close(volume);
      driver.DisconnectFromRados();
    }
  }

}
