# Ceph RBD driver and block-device QoS API, modelled in Dafny

This project models two parts of a Nova compute tree.

**The libvirt RBD driver** (`RBDDriver` with its helpers `RADOSClient` and
`RBDVolumeProxy`). It:

- connects to a Ceph cluster, opening a pool context, and opens RBD images;
- builds the `ceph`/`rbd` command lines;
- parses `rbd://fsid/pool/image/snapshot` locations and monitor addresses;
- decides whether an image can be cloned, and clones it;
- creates, protects, unprotects and removes snapshots;
- destroys volumes with a bounded retry loop.

The native `rados`/`rbd` libraries are replaced by a cluster model, the class
`Ceph.Cluster`. Its state is the pools, their volumes in listing order, each
volume's snapshots with a `protected` flag, and a busy counter of watchers.
The client's capabilities are two sets. One holds the pools it may not use at
all. The other holds the volumes it may list and open but not remove.
It also counts open client sessions, pool contexts and image handles, and logs
every image- and pool-level native call. Every native call is a method whose
effect is a pure transition function on the pools.

The driver's operations are methods of `RbdUtils.RbdDriver`. Each one states,
as functions of the cluster it started from:

- what it returns or raises;
- the pools it leaves;
- the exact sequence of native calls it makes;
- that every session, context and handle it opened is closed again (`Held()`
  unchanged), on the error paths too.

The retry destroyer of `_cleanup_vol`/`_destroy_volume` is specified twice:

- `RbdRetry.DestroyRun` works over any stream of remove outcomes;
- `RbdCleanup` runs it against the cluster model.

`cleanup_volumes` is proved to destroy the volumes whose names start with the
instance uuid in listing order. It stops at the first one whose removal raises.
That volume, every later one and every other volume are left alone.

**The block-device QoS API controller** (`QoSBlockDeviceController`). It covers:

- the range checks on the six rate limits;
- their extraction from a request body;
- the order of the checks of `update`, its conflict rule and its clearing
  rules;
- the response of `update` and the listing of `index`.

A value of type `Cloud` stands for the database and the compute API. It holds
the servers that exist, the block device mappings of each server, and the
stored QoS record of each mapping id. Python's `int()` on the JSON values a
body can hold is modelled in `PyInt`.

The module `Ceph` stands in for the native libraries, which are not part of
this model. Its members therefore have no rows below.

## Model

| member | source | states |
|---|---|---|
| RbdUtils.NonEmpty | nova/virt/libvirt/rbd_utils.py:102-103 | an option counts as set exactly when it is present and not the empty string, and then it is kept unchanged |
| RbdUtils.RbdDriver.constructor | nova/virt/libvirt/rbd_utils.py:98-103 | stores the pool. A missing configuration file becomes "". An empty or missing user becomes None. |
| RbdUtils.RbdDriver.Connected | nova/virt/libvirt/rbd_utils.py:107-118 | the connection succeeds exactly when the cluster is up and `pool or self.pool` exists, and is then bound to that pool; otherwise it fails with a rados error |
| RbdUtils.RbdDriver.ConnectToRados | nova/virt/libvirt/rbd_utils.py:107-118 | returns `Connected(pool)`. On success one more client and context are held. On failure the client is shut down again and nothing more is held. |
| RbdUtils.RbdDriver.DisconnectFromRados | nova/virt/libvirt/rbd_utils.py:120-123 | closes one context and shuts down one client; pools and call log unchanged |
| RbdUtils.RadosClient.Open | nova/virt/libvirt/rbd_utils.py:83-87 | succeeds exactly when `Connected(pool)` does, bound to that pool and holding one more session; on failure the rados error escapes and nothing is held |
| RbdUtils.RadosClient.constructor | nova/virt/libvirt/rbd_utils.py:85-87 | records the driver and the pool its context is bound to |
| RbdUtils.RadosClient.Exit | nova/virt/libvirt/rbd_utils.py:92-93 | gives back the session's context and client |
| RbdUtils.RbdDriver.OpenResult | nova/virt/libvirt/rbd_utils.py:49-64 | a handle is given exactly for an existing volume, and an existing snapshot when one is named, in an existing, permitted pool of a reachable cluster. Otherwise the error is RadosError when the connection fails, PermissionError for a denied pool, and ImageNotFound for a missing volume or snapshot. |
| RbdUtils.VolumeProxy.Open | nova/virt/libvirt/rbd_utils.py:49-68 | returns `OpenResult`. On success one session and one image handle are held. When the image open fails, the session is disconnected before the error escapes. Logs the open call only when the client connected. |
| RbdUtils.VolumeProxy.constructor | nova/virt/libvirt/rbd_utils.py:66-68 | records the driver, the context's pool and the open image |
| RbdUtils.VolumeProxy.Exit | nova/virt/libvirt/rbd_utils.py:73-77 | closes the image, then disconnects: one handle, one context and one client fewer |
| RbdUtils.RbdDriver.CephArgs | nova/virt/libvirt/rbd_utils.py:128-138 | flag/value pairs only: `--id` with the user exactly when a user is configured, `--conf` with the path exactly when a configuration file is, each at most once, `--id` first |
| RbdUtils.CephFlagsUnique | nova/virt/libvirt/rbd_utils.py:133-138 | the configuration determines the flags: two vectors that both meet that description are equal |
| RbdUtils.RbdDriver.MonDumpArgv | nova/virt/libvirt/rbd_utils.py:141 | `ceph mon dump --format=json` followed by the ceph flags |
| RbdUtils.RbdDriver.ImportImageArgv | nova/virt/libvirt/rbd_utils.py:315-328 | `rbd import --pool <driver pool> base name`, then `--new-format` exactly when layering is supported, then the ceph flags |
| MonAddrs.LastIndex | nova/virt/libvirt/rbd_utils.py:151-152 | None exactly when the character is absent; otherwise an index of it with no occurrence after it (`rindex`, `rsplit(c, 1)`) |
| MonAddrs.Strip | nova/virt/libvirt/rbd_utils.py:153 | the result is a slice of the input with only brackets cut before and after it, and it neither starts nor ends with a bracket |
| MonAddrs.SplitAddr | nova/virt/libvirt/rbd_utils.py:151-153 | fails exactly when the address has no '/' or no ':' before its last '/'; the port holds no ':' |
| MonAddrs.SplitFormatAddr | nova/virt/libvirt/rbd_utils.py:151-154 | round trip: `host:port/nonce` splits back to host and port, with or without brackets around the host, IPv6 colons included |
| MonAddrs.LastIndexSplit | nova/virt/libvirt/rbd_utils.py:151-152 | the last `c` of `a + [c] + b` is the one after `a` when `b` holds none |
| MonAddrs.SplitIpv6Example | nova/virt/libvirt/rbd_utils.py:151-154 | `[::1]:6789/0` gives host `::1` and port `6789` |
| MonAddrs.GetMonAddrs | nova/virt/libvirt/rbd_utils.py:147-155 | succeeds exactly when every address splits. Hosts and ports then come back in monitor order. Otherwise it fails on the first address that does not split. |
| RbdLocation.Split | nova/virt/libvirt/rbd_utils.py:162 | `str.split('/')`: never empty, no piece holds the separator |
| RbdLocation.SplitCount | nova/virt/libvirt/rbd_utils.py:162-166 | one more piece than separators |
| RbdLocation.Unquote | nova/virt/libvirt/rbd_utils.py:162 | `urllib.unquote` never lengthens a string, and leaves a non-empty one non-empty |
| RbdLocation.Decode | nova/virt/libvirt/rbd_utils.py:162 | each piece percent-decoded, in order |
| RbdLocation.ParseUrl | nova/virt/libvirt/rbd_utils.py:157-169 | NotStoredInRbd exactly when the prefix is missing. BlankComponents exactly when, with the prefix, a decoded piece is empty. Success gives the four non-empty decoded pieces in order. |
| RbdLocation.ParseUrlSlashCount | nova/virt/libvirt/rbd_utils.py:162-168 | with the prefix and no blank piece, the location is accepted exactly when the rest holds three slashes, and is otherwise "not an rbd snapshot" |
| RbdLocation.UnquoteQuote | nova/virt/libvirt/rbd_utils.py:162 | decoding inverts the encoding of '%' and '/' |
| RbdLocation.SplitFour | nova/virt/libvirt/rbd_utils.py:162 | four slash-free pieces joined by '/' split back into themselves |
| RbdLocation.ParseFormatUrl | nova/virt/libvirt/rbd_utils.py:157-169 | round trip: any location with four non-empty names, written with percent-encoding, parses back to itself, whatever slashes or percent signs the names hold |
| RbdUtils.RbdDriver.FsidResult | nova/virt/libvirt/rbd_utils.py:171-173 | the cluster id when a client on the driver's pool connects, otherwise a rados error |
| RbdUtils.RbdDriver.GetFsid | nova/virt/libvirt/rbd_utils.py:171-176 | returns `FsidResult`, logs one fsid call when connected, and gives its session back |
| RbdUtils.PoolInfoOf | nova/virt/libvirt/rbd_utils.py:372-374 | total, free and used are the KiB statistics times 1024 |
| RbdUtils.RbdDriver.GetPoolInfo | nova/virt/libvirt/rbd_utils.py:369-374 | the statistics in bytes when connected, otherwise a rados error; pools unchanged, session given back |
| RbdUtils.RbdDriver.Size | nova/virt/libvirt/rbd_utils.py:226-228 | the size of the volume opened through the proxy, or the open's error; exact call log; nothing held |
| RbdUtils.RbdDriver.Resize | nova/virt/libvirt/rbd_utils.py:230-238 | only that volume's size changes, to the new size; the open's error leaves the pools unchanged; exact call log |
| RbdUtils.RbdDriver.CreateSnap | nova/virt/libvirt/rbd_utils.py:240-252 | an existing snapshot name is refused as ImageExists and nothing changes. Otherwise the snapshot is appended, protected exactly when `protect` is set. Exact call log, nothing held. |
| RbdUtils.RbdDriver.CreateSnapOn | nova/virt/libvirt/rbd_utils.py:250-252 | the `with` body of create_snap on the open image, with the same result, pools and calls |
| RbdUtils.RbdDriver.ProtectCreated | nova/virt/libvirt/rbd_utils.py:251-252 | a freshly created snapshot is asked about, then protected |
| RbdUtils.RbdDriver.ProtectUnlessProtected | nova/virt/libvirt/rbd_utils.py:251-252 | an already protected snapshot is left alone after the question; an unprotected one becomes protected |
| RbdUtils.RbdDriver.RemoveSnap | nova/virt/libvirt/rbd_utils.py:254-279 | an absent snapshot is left alone. An unprotected one is removed. A protected one is unprotected and removed under force, and skipped without force and without ignore_errors. With ignore_errors but no force, the remove call is still made and its busy refusal escapes. Exact call log. |
| RbdUtils.RbdDriver.RemoveSnapOn | nova/virt/libvirt/rbd_utils.py:265-279 | the `with` body of remove_snap: list, then the cases above |
| RbdUtils.RbdDriver.RemoveListedSnap | nova/virt/libvirt/rbd_utils.py:266-276 | a named snapshot: the protection check, then unprotect and/or remove as above |
| RbdUtils.RbdDriver.UnprotectAndRemove | nova/virt/libvirt/rbd_utils.py:267-276 | a protected snapshot under force is gone afterwards, the other snapshots kept in order |
| RbdUtils.RbdDriver.ParentInfo | nova/virt/libvirt/rbd_utils.py:281-292 | the parent link. A missing volume, or a volume without a parent, gives "no usable parent snapshot". Other errors pass through. Pools unchanged. |
| RbdUtils.RbdDriver.Flatten | nova/virt/libvirt/rbd_utils.py:294-303 | drops the parent link of a cloned volume and nothing else; a volume without a parent is refused |
| RbdUtils.RbdDriver.ExistsResult | nova/virt/libvirt/rbd_utils.py:305-313 | true exactly when the volume, and the snapshot when one is named, exists in a reachable, permitted pool. False exactly when it does not. Any other case is an error: permission or rados. |
| RbdUtils.RbdDriver.Exists | nova/virt/libvirt/rbd_utils.py:305-313 | returns `ExistsResult` with a read-only open and close; pools unchanged; nothing held |
| RbdUtils.CloneableVerdict | nova/virt/libvirt/rbd_utils.py:178-204 | cloneable exactly when the location parses, names this cluster, the format is raw and the probe finds the image. An error escapes exactly when the fsid lookup fails, or the probe fails with a non-rbd error. |
| RbdUtils.RbdDriver.IsCloneable | nova/virt/libvirt/rbd_utils.py:178-204 | returns `CloneableVerdict`. Asks for the fsid only once the location parses, and probes only once the fsid and the format match. Pools unchanged. |
| RbdUtils.RbdDriver.Clone | nova/virt/libvirt/rbd_utils.py:206-224 | a bad location is ImageUnacceptable. A source or destination connection failure escapes. Bindings without layering fail before any clone call. Otherwise one clone call is made, with a layered child whose outcome is `CloneOutcome`. Nothing held. |
| RbdUtils.RbdDriver.CloneOutcome | nova/virt/libvirt/rbd_utils.py:215-224 | success passes through; a permission refusal becomes Forbidden on the destination pool; other errors pass through |
| RbdUtils.RbdDriver.CloneWithin | nova/virt/libvirt/rbd_utils.py:215-224 | the clone call under both sessions, or NoLayering before it |
| RbdRetry.CleanupStep | nova/virt/libvirt/rbd_utils.py:330-340 | success ends the loop and is not a time-out. Busy or has-snapshots spends a retry, and ends the loop timed out once the budget is at or below zero. Any other error escapes. |
| RbdUtils.RetryContext.constructor | nova/virt/libvirt/rbd_utils.py:346 | the retry budget starts at the given count |
| RbdUtils.RbdDriver.CleanupVol | nova/virt/libvirt/rbd_utils.py:330-340 | one remove call; its signal is `CleanupStep` of the remove outcome, and the counter follows it |
| RbdRetry.TimerRunShape | nova/virt/libvirt/rbd_utils.py:347-349 | the looping call stops within the budget: on the first success, on the first other error, or after that many busy attempts with the budget at zero |
| RbdRetry.TimerRunSkipsBusy | nova/virt/libvirt/rbd_utils.py:330-349 | busy attempts only spend budget |
| RbdRetry.DestroySucceedsAt | nova/virt/libvirt/rbd_utils.py:342-349 | success at attempt n ≤ 10 after busy ones: exactly n attempts and no extra one |
| RbdRetry.DestroyFailsAt | nova/virt/libvirt/rbd_utils.py:330-349 | any other error at attempt n ≤ 10 escapes at once |
| RbdRetry.DestroyExhausted | nova/virt/libvirt/rbd_utils.py:346-356 | ten busy attempts are followed by exactly one more. Only a non-busy error there is raised; a busy outcome there is swallowed. |
| RbdRetry.DestroyBounds | nova/virt/libvirt/rbd_utils.py:342-356 | between 1 and 11 attempts. An error only when the last attempt reported one that is neither busy nor has-snapshots. 11 attempts exactly after ten busy ones. |
| RbdCleanup.AttemptStep | nova/virt/libvirt/rbd_utils.py:332 | attempt n on the cluster model reports `AttemptOutcome` and leaves the volume of n + 1 attempts |
| RbdCleanup.LoopContinues | nova/virt/libvirt/rbd_utils.py:338-340 | a round that asks for another was busy, and budget remains |
| RbdCleanup.LoopExit | nova/virt/libvirt/rbd_utils.py:347-356 | how the loop's last signal fixes the destroyer's result, including the extra attempt after a time-out |
| RbdCleanup.DestroyExisting | nova/virt/libvirt/rbd_utils.py:342-356 | an existing volume the client may remove never makes the destroyer raise. It is removed unless it has snapshots or more than ten watchers, with `DestroyAttempts` remove calls. |
| RbdCleanup.DestroyRefused | nova/virt/libvirt/rbd_utils.py:330-356 | a refused remove or a missing volume: one attempt, that error, nothing changed |
| RbdUtils.RbdDriver.TimedLoop | nova/virt/libvirt/rbd_utils.py:347-349 | the looping call stops after 1 to 10 attempts, all but the last busy, with n remove calls |
| RbdUtils.RbdDriver.AttemptFrom | nova/virt/libvirt/rbd_utils.py:330-340 | one `_cleanup_vol` call as attempt n of the destroyer |
| RbdUtils.RbdDriver.DestroyWithin | nova/virt/libvirt/rbd_utils.py:342-356 | result, remove calls and remaining volume are those of `DestroyRun` over the outcomes the cluster reports |
| RbdUtils.RbdDriver.DestroyVolume | nova/virt/libvirt/rbd_utils.py:376-380 | on an existing volume the client may remove: success, with the volume as `DestroyEffect` leaves it. Otherwise the single attempt's error escapes. Nothing held. |
| RbdCleanup.Owned | nova/virt/libvirt/rbd_utils.py:361-366 | exactly the listed names that start with the uuid |
| RbdCleanup.OwnedDistinct | nova/virt/libvirt/rbd_utils.py:365-366 | filtering a list of distinct names keeps them distinct |
| RbdCleanup.OwnedAppend | nova/virt/libvirt/rbd_utils.py:366 | filtering keeps listing order |
| RbdCleanup.DestroyStep | nova/virt/libvirt/rbd_utils.py:367 | one destroyer run changes that volume only |
| RbdCleanup.DestroyAllEffect | nova/virt/libvirt/rbd_utils.py:358-367 | destroying distinct names leaves each as `DestroyEffect` says and every other volume of every pool as it was |
| RbdCleanup.FirstRefused | nova/virt/libvirt/rbd_utils.py:366-367 | the position of the first owned volume whose removal is refused: none before it is refused, and it is, unless it is the end of the list |
| RbdCleanup.CleanupPrefixEffect | nova/virt/libvirt/rbd_utils.py:364-367 | stopping before owned[k]: the owned volumes before it are as `DestroyEffect` leaves them; owned[k], every later owned volume and every other volume are unchanged |
| RbdCleanup.DestroyAllUntouched | nova/virt/libvirt/rbd_utils.py:366-367 | a name not yet destroyed keeps its volume |
| RbdCleanup.CleanupOne | nova/virt/libvirt/rbd_utils.py:366-367 | before destroying owned[i], that volume is as listed. Its destroyer succeeds, and extends the state and the log by that volume. |
| RbdUtils.RbdDriver.CleanupVolumes | nova/virt/libvirt/rbd_utils.py:358-367 | lists the driver's pool (a refused listing escapes), then destroys the owned volumes in listing order up to the first refused one (`FirstRefused`). It ends in `DestroyAll` of that prefix, with the calls of `DestroyAllCalls` and then the one refused remove. It succeeds exactly when no owned volume is refused, and otherwise raises PermissionError. Nothing held. |
| RbdUtils.RbdDriver.DestroyEach | nova/virt/libvirt/rbd_utils.py:366-367 | the loop over the owned volumes stops at the first raising `_destroy_volume` and lets its error escape; state and calls as above |
| RbdUtils.RbdDriver.DestroyNext | nova/virt/libvirt/rbd_utils.py:366-367 | one round of that loop: a volume the client may remove is destroyed and extends the state and the log; a refused one logs one remove, raises PermissionError and changes nothing |
| PyInt.ToIntShow | nova/api/openstack/compute/contrib/qos_block_devices.py:46 | `int(str(n)) == n` for every integer |
| PyInt.RefusesStray | nova/api/openstack/compute/contrib/qos_block_devices.py:46-47 | a character that is neither whitespace, sign nor digit makes int() raise ValueError |
| PyInt.ToIntPadded | nova/api/openstack/compute/contrib/qos_block_devices.py:46 | whitespace before and after, of any length on either side, one side empty included, does not change what int() reads |
| QosBlockDevices.CheckParam | nova/api/openstack/compute/contrib/qos_block_devices.py:44-75 | accepted exactly when int() succeeds and the value is 0 or at least the minimum, keeping the value. ValueError means "not an integer". TypeError escapes. A negative value, or one between 0 and the minimum, is its own refusal. |
| QosBlockDevices.BandwidthRange | nova/api/openstack/compute/contrib/qos_block_devices.py:44-59 | a bandwidth is accepted exactly when it is 0 or ≥ 1048576, as a number and as its decimal text alike |
| QosBlockDevices.IopsRange | nova/api/openstack/compute/contrib/qos_block_devices.py:61-75 | an IOPS limit is accepted exactly when it is 0 or ≥ 10, as a number and as its text alike |
| QosBlockDevices.CheckExamples | nova/tests/api/openstack/compute/contrib/test_qos_block_devices.py:212-247 | 'a' is not an integer, -100 is negative, 5 IOPS and 100 bytes per second are under the minimums |
| QosBlockDevices.PaddedExample | nova/api/openstack/compute/contrib/qos_block_devices.py:63 | " 50 " is accepted as 50 IOPS |
| QosBlockDevices.Fill | nova/api/openstack/compute/contrib/qos_block_devices.py:86-94 | a loop only ever refuses with a body reason or the uncaught TypeError |
| QosBlockDevices.QosFromBody | nova/api/openstack/compute/contrib/qos_block_devices.py:77-96 | the same for the whole extraction, including the missing `qos_block_device` |
| QosBlockDevices.FillShape | nova/api/openstack/compute/contrib/qos_block_devices.py:86-94 | a loop succeeds exactly when every present key passes, adding exactly the present keys with their checked values; otherwise it fails with the first present key's refusal |
| QosBlockDevices.QosOfShape | nova/api/openstack/compute/contrib/qos_block_devices.py:81-96 | success exactly when every present rate passes its own check. The keys are then exactly the present ones among the six, each with its checked integer. |
| QosBlockDevices.KeyFamilies | nova/api/openstack/compute/contrib/qos_block_devices.py:83-84 | the six keys are the three bandwidth and the three IOPS keys, disjoint |
| QosBlockDevices.QosOfIgnoresOthers | nova/api/openstack/compute/contrib/qos_block_devices.py:83-94 | keys other than the six do not affect the result |
| QosBlockDevices.FillStops | nova/api/openstack/compute/contrib/qos_block_devices.py:86-94 | the first refusal ends the loop |
| QosBlockDevices.QosOfNumbers | nova/api/openstack/compute/contrib/qos_block_devices.py:81-96 | a request of in-range numbers for some of the six keys yields exactly those rates |
| QosBlockDevices.GetQosFromBody | nova/api/openstack/compute/contrib/qos_block_devices.py:77-96 | the two loops compute `QosFromBody` |
| QosBlockDevices.LastDeviceFinds | nova/api/openstack/compute/contrib/qos_block_devices.py:121-131 | no device exactly when no mapping has the id. Otherwise it is the name of a mapping with the id after which none has it (the last match wins). |
| QosBlockDevices.Update | nova/api/openstack/compute/contrib/qos_block_devices.py:98-196 | computes `UpdateOutcome`: the checks in source order, then the clearing rules and the merged response |
| QosBlockDevices.CheckConflict | nova/api/openstack/compute/contrib/qos_block_devices.py:140-156 | the flag is raised exactly when a non-zero total comes with a non-zero read or write rate of the same kind |
| QosBlockDevices.ClearRates | nova/api/openstack/compute/contrib/qos_block_devices.py:162-184 | the four clearing rules, applied in order to the request's rates |
| QosBlockDevices.ClearedKeepsExclusive | nova/api/openstack/compute/contrib/qos_block_devices.py:140-193 | a stored record without a total next to a read/write limit, updated by a conflict-free request, again has none |
| QosBlockDevices.ClearedOnlyZeroes | nova/api/openstack/compute/contrib/qos_block_devices.py:162-184 | the clearing keeps every requested key, sets a requested rate to its value or to 0, and adds only zeroes among the six |
| QosBlockDevices.UpdateKeepsExclusive | nova/api/openstack/compute/contrib/qos_block_devices.py:140-196 | when every stored record has exclusive limits, so does every successful response |
| QosBlockDevices.UpdateConflict | nova/api/openstack/compute/contrib/qos_block_devices.py:140-160 | past the earlier checks, the request is refused as conflicting exactly when its rates conflict |
| QosBlockDevices.UpdateOrder | nova/api/openstack/compute/contrib/qos_block_devices.py:102-138 | a bad id or server id decides the outcome whatever the body and the cloud. A missing mapping is "not found". A missing stored record only follows a valid body. A body refusal only comes once the mapping is found. |
| QosBlockDevices.UpdateResult | nova/api/openstack/compute/contrib/qos_block_devices.py:186-196 | the response has the eight stored fields, each rate replaced by the sent one where sent, both ids as stored, and the last matching mapping's device name |
| QosBlockDevices.MergedFields | nova/api/openstack/compute/contrib/qos_block_devices.py:189-193 | overriding the stored fields with rates among the six keeps the eight keys and both ids |
| QosBlockDevices.PutBodyExample | nova/tests/api/openstack/compute/contrib/test_qos_block_devices.py:155-160 | the test body's six numbers are extracted unchanged |
| QosBlockDevices.PutExample | nova/tests/api/openstack/compute/contrib/test_qos_block_devices.py:131-170 | the update of the test: the rates pass through unchanged, and the response adds bdm id 18, id 28 and `/dev/vda` |
| QosBlockDevices.Index | nova/api/openstack/compute/contrib/qos_block_devices.py:198-230 | a bad server id or a missing server is refused; otherwise the listing of the server's mappings |
| QosBlockDevices.ListingAppend | nova/api/openstack/compute/contrib/qos_block_devices.py:214-228 | the listing follows mapping order: the listing of two runs is their listings one after the other |
| QosBlockDevices.ListingMembers | nova/api/openstack/compute/contrib/qos_block_devices.py:214-228 | an entry is listed exactly for a mapping with a stored record, as its eight fields and device name |
| QosBlockDevices.ListingSkipsAll | nova/api/openstack/compute/contrib/qos_block_devices.py:215-220 | mappings without records give an empty listing |

## Notes on the code

- `RbdUtils.RbdDriver.RemoveSnap` follows the code, not the docstring or the
  log text. With `ignore_errors` set and `force` unset, a protected snapshot
  skips the `return` (lines 266-273). The code then calls `vol.remove_snap`,
  which the cluster refuses as busy, and that error escapes.
- `RbdRetry.DestroyRun` follows the code, not the comment at lines 351-352.
  After the ten-attempt budget runs out, `_destroy_volume` makes one more
  attempt. If that attempt is busy too, `_cleanup_vol` raises
  `LoopingCallDone`, which is swallowed. So the busy error is not propagated,
  and only a different error escapes.
- The looping call's one-second interval plays no part in the result. The
  model counts attempts, not time.

## Left out

- The native `rados` and `rbd` libraries are not part of this model. The
  `Ceph` module stands in for them with the transitions the driver relies on.
- `tpool.execute` around `flatten` is thread-pool offloading and is not modelled.
- Logging and translated messages are not modelled.
- The utf-8 `encode` of names and `str()` of pools and names are not modelled.
  Strings are sequences of characters.
- `utils.execute` is not modelled. For `get_mon_addrs` the command line is
  modelled (`MonDumpArgv`), and so is the address splitting over the `addr`
  fields (`GetMonAddrs`). The process run, the "dumped monmap epoch" line
  stripping and the JSON decoding of its output are left out.
- `import_image` is modelled as the argument vector it passes
  (`ImportImageArgv`); the run of the `rbd` command is left out.
- The RuntimeError raised when the `rbd` bindings are missing is left out.
  The model assumes the bindings are loaded. `supports_layering` is the
  driver's `layering` flag.
- A volume removed by another client while cleanup_volumes runs would raise
  ImageNotFound. Concurrency is not modelled, so the only error the loop can
  meet on a listed volume is a refused remove.
- The `undeletable` volumes refuse only removal; other writes to them are not
  refused in the model.
- Rados credentials and configuration-file contents are left out. `up` says
  whether a client can connect at all.
- `RBDVolumeProxy.__getattr__` delegation is not modelled. The driver calls
  the cluster's image methods on the proxy's handle directly.
- `__enter__` returns the object itself and carries no behaviour. Python's
  exception unwinding through `with` is written out as explicit error paths.
- `get_fsid` only delegates to `_get_fsid`, which `GetFsid` models.
- The request object, `authorize_*` policy checks and the nova context are
  not modelled.
- `uuidutils.is_uuid_like` is the parameter `uuidLike`.
- `compute_api.get`, the database lookups and the block device mapping
  listing are the `Cloud` value.
- The side effect of `compute_api.update_block_device_qos` is not modelled.
  What the update sends is the `sent` field of the result.
- The HTTP exception messages are not modelled; only their kind (400 or 404)
  and reason are.
- PyInt does not model these cases of Python's `int()`:
  - JSON floats, which int() truncates;
  - non-ASCII Unicode digits and non-ASCII Unicode whitespace such as U+00A0;
  - whitespace between the sign and the digits, which Python 2 also accepts.
  ASCII whitespace, including U+001C to U+001F, is modelled.
- A body, or a `qos_block_device` entry, that is not a JSON object is not
  modelled. Bodies and requests are maps from keys to values.
