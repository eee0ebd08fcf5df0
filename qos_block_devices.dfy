/**
 * The block-device QoS API controller (QoSBlockDeviceController): the range
 * checks on the six rate limits, their extraction from a request body, the
 * conflict and clearing rules of `update` and the records `index` lists.
 *
 * The database and compute lookups are inputs: a `Cloud` value holds the
 * servers that exist, the block device mappings of each server and the stored
 * QoS record of each block device; `uuidLike` stands for uuidutils.is_uuid_like.
 */
module QosBlockDevices {
  import opened Wrappers
  import opened PyInt

  /** MIN_BINDWIDTH: one MiB per second. */
  const MinBandwidth: int := 1 * 1024 * 1024
  /** MIN_IOPS. */
  const MinIops: int := 10

  /** Why a request is refused. */
  datatype Reason =
    | NotAnInteger  // a rate int() refuses
    | Negative      // a rate below zero
    | BelowMinimum  // a rate between zero and the minimum
    | MissingQos    // no 'qos_block_device' in the body
    | BadBdmId      // a block device id int() refuses
    | BadServerId   // a server id that is not a uuid
    | NoInstance    // compute_api.get raised InstanceNotFound
    | NoBlockDevice // the server has no block device with that id
    | NoQosRecord   // the block device has no stored QoS record
    | Conflict      // a non-zero total and a non-zero read or write rate in one request

  /**
   * How a call ends when it returns nothing: HTTP 400 or 404, or the TypeError
   * that int() raises on null, lists and objects, which no handler catches.
   */
  datatype Fault = BadRequest(reason: Reason) | NotFound(reason: Reason) | Uncaught

  /**
   * _check_bandwidth_param and _check_iops_param, which differ only in the
   * minimum: zero (no limit) or at least the minimum, as an integer.
   */
  function CheckParam(v: Value, minimum: int): (r: Result<int, Fault>)
    requires minimum > 0
    ensures r.Ok? <==> ToInt(v).Ok? && (ToInt(v).value == 0 || ToInt(v).value >= minimum)
    ensures r.Ok? ==> r.value == ToInt(v).value
    ensures ToInt(v) == Err(ValueError) ==> r == Err(BadRequest(NotAnInteger))
    ensures ToInt(v) == Err(TypeError) ==> r == Err(Uncaught)
    ensures ToInt(v).Ok? && ToInt(v).value < 0 ==> r == Err(BadRequest(Negative))
    ensures ToInt(v).Ok? && 0 < ToInt(v).value < minimum ==> r == Err(BadRequest(BelowMinimum))
  {
    match ToInt(v)
    case Err(e) => if e == ValueError then Err(BadRequest(NotAnInteger)) else Err(Uncaught)
    case Ok(n) =>
      if n < 0 then Err(BadRequest(Negative))
      else if n > 0 && n < minimum then Err(BadRequest(BelowMinimum))
      else Ok(n)
  }

  function CheckBandwidth(v: Value): Result<int, Fault> {
    CheckParam(v, MinBandwidth)
  }

  function CheckIops(v: Value): Result<int, Fault> {
    CheckParam(v, MinIops)
  }

  /**
   * A bandwidth limit is 0 or at least 1048576 bytes per second, whether it
   * arrives as a JSON number or as its decimal text.
   */
  lemma BandwidthRange(n: int)
    ensures CheckBandwidth(Int(n)).Ok? <==> n == 0 || n >= 1048576
    ensures CheckBandwidth(Int(n)).Ok? ==> CheckBandwidth(Int(n)).value == n
    ensures CheckBandwidth(Text(Show(n))) == CheckBandwidth(Int(n))
  {
    ToIntShow(n);
  }

  /** An IOPS limit is 0 or at least 10, as a number or as its decimal text. */
  lemma IopsRange(n: int)
    ensures CheckIops(Int(n)).Ok? <==> n == 0 || n >= 10
    ensures CheckIops(Int(n)).Ok? ==> CheckIops(Int(n)).value == n
    ensures CheckIops(Text(Show(n))) == CheckIops(Int(n))
  {
    ToIntShow(n);
  }

  /** The refusals of the tests ('a' and -100), and a rate under each minimum. */
  lemma CheckExamples()
    ensures CheckBandwidth(Text("a")) == Err(BadRequest(NotAnInteger))
    ensures CheckIops(Text("a")) == Err(BadRequest(NotAnInteger))
    ensures CheckBandwidth(Int(-100)) == Err(BadRequest(Negative))
    ensures CheckIops(Int(5)) == Err(BadRequest(BelowMinimum))
    ensures CheckBandwidth(Int(100)) == Err(BadRequest(BelowMinimum))
  {
    RefusesStray("a", 0);
  }

  /** Whitespace around the digits is accepted, as int() accepts it. */
  lemma PaddedExample()
    ensures CheckIops(Text(" 50 ")) == Ok(50)
  {
    FiftyExample();
    ToIntPadded(" ", "50", " ");
    assert " " + "50" + " " == " 50 ";
  }

  lemma FiftyExample()
    ensures ToInt(Text("50")) == Ok(50)
  {
    assert ShowNat(5) == "5";
    assert Show(50) == "50";
    ToIntShow(50);
  }

  type Request = map<string, Value>
  type Qos = map<string, int>

  const BandwidthKeys: seq<string> := ["total_bps", "read_bps", "write_bps"]
  const IopsKeys: seq<string> := ["total_iops", "read_iops", "write_iops"]
  /** The six rate limits, in the order _get_qos_from_body visits them. */
  const QosKeys: seq<string> := BandwidthKeys + IopsKeys

  function Check(bandwidth: bool, v: Value): Result<int, Fault> {
    if bandwidth then CheckBandwidth(v) else CheckIops(v)
  }

  /** The check _get_qos_from_body applies to a key among the six. */
  function CheckKey(k: string, v: Value): Result<int, Fault> {
    Check(k in BandwidthKeys, v)
  }

  /**
   * One loop of _get_qos_from_body over `keys`, continuing from `qos`: every
   * key the request holds is checked and stored; the first refusal ends it.
   */
  function Fill(req: Request, keys: seq<string>, bandwidth: bool, qos: Qos): (r: Result<Qos, Fault>)
    ensures r.Err? ==> BodyReason(r.error) || r.error == Uncaught
  {
    if keys == [] then Ok(qos)
    else
      match Fill(req, keys[..|keys| - 1], bandwidth, qos)
      case Err(e) => Err(e)
      case Ok(m) =>
        var k := keys[|keys| - 1];
        if k in req then
          match Check(bandwidth, req[k])
          case Err(e) => Err(e)
          case Ok(x) => Ok(m[k := x])
        else Ok(m)
  }

  /** Both loops of _get_qos_from_body on the request object. */
  function QosOf(req: Request): Result<Qos, Fault> {
    match Fill(req, BandwidthKeys, true, map[])
    case Err(e) => Err(e)
    case Ok(m) => Fill(req, IopsKeys, false, m)
  }

  /** _get_qos_from_body on the whole body. */
  function QosFromBody(body: map<string, Request>): (r: Result<Qos, Fault>)
    ensures r.Err? ==> BodyReason(r.error) || r.error == Uncaught
  {
    if "qos_block_device" !in body then Err(BadRequest(MissingQos))
    else QosOf(body["qos_block_device"])
  }

  /**
   * What one loop yields: success exactly when every present key passes its
   * check; then the keys of `qos` plus the present keys, each with its checked
   * value; otherwise the refusal of the first present key that fails.
   */
  lemma {:induction false} FillShape(req: Request, keys: seq<string>, bandwidth: bool, qos: Qos)
    ensures var r := Fill(req, keys, bandwidth, qos);
      && (r.Ok? <==> forall k :: k in keys && k in req ==> Check(bandwidth, req[k]).Ok?)
      && (r.Ok? ==> r.value.Keys == qos.Keys + (set k | k in keys && k in req))
      && (r.Ok? ==> forall k :: k in r.value ==>
            if k in keys && k in req then Check(bandwidth, req[k]) == Ok(r.value[k]) else r.value[k] == qos[k])
      && (r.Err? ==> FirstRefusal(req, keys, bandwidth, r.error))
  {
    if keys != [] {
      var init := keys[..|keys| - 1];
      var k := keys[|keys| - 1];
      FillShape(req, init, bandwidth, qos);
      assert forall x :: x in keys <==> x in init || x == k by {
        assert keys == init + [k];
      }
      var prev := Fill(req, init, bandwidth, qos);
      if prev.Err? {
        FirstRefusalExtends(req, keys, bandwidth, prev.error);
      } else if k in req && Check(bandwidth, req[k]).Err? {
        FirstRefusalLast(req, keys, bandwidth);
      }
    }
  }

  /** `e` is the refusal of the first key of `keys` present in `req` whose check fails. */
  ghost predicate FirstRefusal(req: Request, keys: seq<string>, bandwidth: bool, e: Fault) {
    exists i :: 0 <= i < |keys| && keys[i] in req && Check(bandwidth, req[keys[i]]) == Err(e)
      && forall j :: 0 <= j < i && keys[j] in req ==> Check(bandwidth, req[keys[j]]).Ok?
  }

  lemma FirstRefusalExtends(req: Request, keys: seq<string>, bandwidth: bool, e: Fault)
    requires keys != [] && FirstRefusal(req, keys[..|keys| - 1], bandwidth, e)
    ensures FirstRefusal(req, keys, bandwidth, e)
  {
    var init := keys[..|keys| - 1];
    var i :| 0 <= i < |init| && init[i] in req && Check(bandwidth, req[init[i]]) == Err(e)
      && forall j :: 0 <= j < i && init[j] in req ==> Check(bandwidth, req[init[j]]).Ok?;
    assert keys[i] == init[i];
    assert forall j :: 0 <= j < i ==> keys[j] == init[j];
  }

  lemma FirstRefusalLast(req: Request, keys: seq<string>, bandwidth: bool)
    requires keys != [] && keys[|keys| - 1] in req && Check(bandwidth, req[keys[|keys| - 1]]).Err?
    requires forall k :: k in keys[..|keys| - 1] && k in req ==> Check(bandwidth, req[k]).Ok?
    ensures FirstRefusal(req, keys, bandwidth, Check(bandwidth, req[keys[|keys| - 1]]).error)
  {
    var n := |keys| - 1;
    forall j | 0 <= j < n && keys[j] in req ensures Check(bandwidth, req[keys[j]]).Ok? {
      assert keys[..n][j] == keys[j];
    }
  }

  /**
   * What _get_qos_from_body yields from a request object: success exactly when
   * every present rate passes its check, and then exactly the present rates
   * among the six, each as its checked integer.
   */
  lemma QosOfShape(req: Request)
    ensures QosOf(req).Ok? <==> forall k :: k in QosKeys && k in req ==> CheckKey(k, req[k]).Ok?
    ensures QosOf(req).Ok? ==> QosOf(req).value.Keys == set k | k in QosKeys && k in req
    ensures QosOf(req).Ok? ==> forall k :: k in QosOf(req).value ==> CheckKey(k, req[k]) == Ok(QosOf(req).value[k])
  {
    FillShape(req, BandwidthKeys, true, map[]);
    KeyFamilies();
    var first := Fill(req, BandwidthKeys, true, map[]);
    if first.Ok? {
      FillShape(req, IopsKeys, false, first.value);
    }
  }

  /** Which check each of the six keys gets. */
  lemma KeyFamilies()
    ensures forall k :: k in QosKeys <==> k in BandwidthKeys || k in IopsKeys
    ensures forall k :: k in IopsKeys ==> k !in BandwidthKeys
  {
  }

  /** Keys other than the six are ignored: requests that agree on the six give the same result. */
  lemma QosOfIgnoresOthers(req1: Request, req2: Request)
    requires forall k :: k in QosKeys ==> (k in req1 <==> k in req2) && (k in req1 ==> req1[k] == req2[k])
    ensures QosOf(req1) == QosOf(req2)
  {
    KeyFamilies();
    FillAgree(req1, req2, BandwidthKeys, true, map[]);
    var first := Fill(req1, BandwidthKeys, true, map[]);
    if first.Ok? {
      FillAgree(req1, req2, IopsKeys, false, first.value);
    }
  }

  lemma {:induction false} FillAgree(req1: Request, req2: Request, keys: seq<string>, bandwidth: bool, qos: Qos)
    requires forall k :: k in keys ==> (k in req1 <==> k in req2) && (k in req1 ==> req1[k] == req2[k])
    ensures Fill(req1, keys, bandwidth, qos) == Fill(req2, keys, bandwidth, qos)
  {
    if keys != [] {
      var init := keys[..|keys| - 1];
      assert forall k :: k in init ==> k in keys;
      assert keys[|keys| - 1] in keys;
      FillAgree(req1, req2, init, bandwidth, qos);
    }
  }

  /** Once a prefix of the keys is refused, the loop ends with that refusal. */
  lemma {:induction false} FillStops(req: Request, keys: seq<string>, bandwidth: bool, qos: Qos, n: nat)
    requires n <= |keys| && Fill(req, keys[..n], bandwidth, qos).Err?
    ensures Fill(req, keys, bandwidth, qos) == Fill(req, keys[..n], bandwidth, qos)
    decreases |keys|
  {
    if n < |keys| {
      var init := keys[..|keys| - 1];
      assert init[..n] == keys[..n];
      FillStops(req, init, bandwidth, qos, n);
    } else {
      assert keys[..n] == keys;
    }
  }

  /** _get_qos_from_body: its two loops over the bandwidth and the IOPS keys. */
  method GetQosFromBody(body: map<string, Request>) returns (r: Result<Qos, Fault>)
    ensures r == QosFromBody(body)
  {
    if "qos_block_device" !in body {
      return Err(BadRequest(MissingQos));
    }
    var req := body["qos_block_device"];
    var qos: Qos := map[];
    for i := 0 to |BandwidthKeys|
      invariant Fill(req, BandwidthKeys[..i], true, map[]) == Ok(qos)
    {
      var key := BandwidthKeys[i];
      assert BandwidthKeys[..i + 1][..i] == BandwidthKeys[..i];
      if key in req {
        var value := CheckBandwidth(req[key]);
        if value.Err? {
          FillStops(req, BandwidthKeys, true, map[], i + 1);
          return Err(value.error);
        }
        qos := qos[key := value.value];
      }
    }
    assert BandwidthKeys[..|BandwidthKeys|] == BandwidthKeys;
    ghost var afterBandwidth := qos;
    for i := 0 to |IopsKeys|
      invariant Fill(req, IopsKeys[..i], false, afterBandwidth) == Ok(qos)
    {
      var key := IopsKeys[i];
      assert IopsKeys[..i + 1][..i] == IopsKeys[..i];
      if key in req {
        var value := CheckIops(req[key]);
        if value.Err? {
          FillStops(req, IopsKeys, false, afterBandwidth, i + 1);
          return Err(value.error);
        }
        qos := qos[key := value.value];
      }
    }
    assert IopsKeys[..|IopsKeys|] == IopsKeys;
    return Ok(qos);
  }

  /** A block device mapping of a server. */
  datatype Bdm = Bdm(id: int, deviceName: string)

  /** A stored row of the block_device_qoses table. */
  datatype QosRecord = QosRecord(
    totalBps: int, totalIops: int, readBps: int, writeBps: int,
    readIops: int, writeIops: int, bdmId: int, id: int)

  /** What the database and the compute API would answer. */
  datatype Cloud = Cloud(
    instances: set<string>,
    bdms: map<string, seq<Bdm>>,
    records: map<int, QosRecord>)

  function BdmsOf(cloud: Cloud, server: string): seq<Bdm> {
    if server in cloud.bdms then cloud.bdms[server] else []
  }

  /** The eight stored fields, under the names the response uses. */
  function Fields(q: QosRecord): Qos {
    map["total_bps" := q.totalBps, "total_iops" := q.totalIops,
        "read_bps" := q.readBps, "write_bps" := q.writeBps,
        "read_iops" := q.readIops, "write_iops" := q.writeIops,
        "block_device_mapping_id" := q.bdmId, "id" := q.id]
  }

  /** A `qos_block_device` entry of a response: the numeric fields and `device_name`. */
  datatype QosView = QosView(fields: Qos, deviceName: string)

  /** What a successful update sends to update_block_device_qos, and what it returns. */
  datatype Updated = Updated(sent: Qos, view: QosView)

  /**
   * The device name the lookup loop of `update` keeps: that of the LAST
   * mapping with the id, since a later match overwrites an earlier one.
   */
  function LastDevice(bdms: seq<Bdm>, id: int): Option<string> {
    if bdms == [] then None
    else if bdms[|bdms| - 1].id == id then Some(bdms[|bdms| - 1].deviceName)
    else LastDevice(bdms[..|bdms| - 1], id)
  }

  /**
   * The lookup finds nothing exactly when no mapping has the id; otherwise the
   * name of a mapping with the id after which no other mapping has it.
   */
  lemma {:induction false} LastDeviceFinds(bdms: seq<Bdm>, id: int)
    ensures var r := LastDevice(bdms, id);
      && (r.None? <==> forall i :: 0 <= i < |bdms| ==> bdms[i].id != id)
      && (r.Some? ==> exists i :: 0 <= i < |bdms| && bdms[i].id == id && bdms[i].deviceName == r.value
                                  && forall j :: i < j < |bdms| ==> bdms[j].id != id)
  {
    if bdms == [] {
    } else if bdms[|bdms| - 1].id == id {
      var i := |bdms| - 1;
      assert bdms[i].id == id && bdms[i].deviceName == LastDevice(bdms, id).value;
    } else {
      var init := bdms[..|bdms| - 1];
      LastDeviceFinds(init, id);
      assert LastDevice(bdms, id) == LastDevice(init, id);
      assert forall i :: 0 <= i < |init| ==> init[i] == bdms[i];
    }
  }

  predicate NonZero(qos: Qos, k: string) {
    k in qos && qos[k] != 0
  }

  /** The argument check of `update`: a non-zero total with a non-zero read or write rate. */
  predicate Conflicting(qos: Qos) {
    || (NonZero(qos, "total_bps") && (NonZero(qos, "read_bps") || NonZero(qos, "write_bps")))
    || (NonZero(qos, "total_iops") && (NonZero(qos, "read_iops") || NonZero(qos, "write_iops")))
  }

  /**
   * The clearing rules of `update`, in their order: a stored total goes to 0
   * when the request sets a read or write rate; stored read and write rates go
   * to 0 when the request (after the first rule) still sets a total.
   */
  function Cleared(stored: QosRecord, qos: Qos): Qos {
    var q1 := if stored.totalBps != 0 && (NonZero(qos, "read_bps") || NonZero(qos, "write_bps"))
              then qos["total_bps" := 0] else qos;
    var q2 := if stored.totalIops != 0 && (NonZero(q1, "read_iops") || NonZero(q1, "write_iops"))
              then q1["total_iops" := 0] else q1;
    var q3 := if (stored.readBps != 0 || stored.writeBps != 0) && NonZero(q2, "total_bps")
              then q2["read_bps" := 0]["write_bps" := 0] else q2;
    if (stored.readIops != 0 || stored.writeIops != 0) && NonZero(q3, "total_iops")
    then q3["read_iops" := 0]["write_iops" := 0] else q3
  }

  /** No total limit together with a read or write limit of the same kind. */
  predicate Exclusive(m: Qos) {
    && !(NonZero(m, "total_bps") && (NonZero(m, "read_bps") || NonZero(m, "write_bps")))
    && !(NonZero(m, "total_iops") && (NonZero(m, "read_iops") || NonZero(m, "write_iops")))
  }

  /** `update` from its arguments to its response, checks in the order the source makes them. */
  function UpdateOutcome(id: Value, serverId: string, body: map<string, Request>, cloud: Cloud,
                         uuidLike: string -> bool): Result<Updated, Fault> {
    match ToInt(id)
    case Err(e) => if e == ValueError then Err(BadRequest(BadBdmId)) else Err(Uncaught)
    case Ok(bdmId) =>
      if !uuidLike(serverId) then Err(BadRequest(BadServerId))
      else if serverId !in cloud.instances then Err(NotFound(NoInstance))
      else
        match LastDevice(BdmsOf(cloud, serverId), bdmId)
        case None => Err(NotFound(NoBlockDevice))
        case Some(device) =>
          match QosFromBody(body)
          case Err(e) => Err(e)
          case Ok(qos) =>
            if bdmId !in cloud.records then Err(NotFound(NoQosRecord))
            else if Conflicting(qos) then Err(BadRequest(Conflict))
            else
              var stored := cloud.records[bdmId];
              var sent := Cleared(stored, qos);
              Ok(Updated(sent, QosView(Fields(stored) + sent, device)))
  }

  /** QoSBlockDeviceController.update. */
  method Update(id: Value, serverId: string, body: map<string, Request>, cloud: Cloud, uuidLike: string -> bool)
    returns (r: Result<Updated, Fault>)
    ensures r == UpdateOutcome(id, serverId, body, cloud, uuidLike)
  {
    var parsed := ToInt(id);
    if parsed.Err? {
      return if parsed.error == ValueError then Err(BadRequest(BadBdmId)) else Err(Uncaught);
    }
    var bdmId := parsed.value;
    if !uuidLike(serverId) {
      return Err(BadRequest(BadServerId));
    }
    if serverId !in cloud.instances {
      return Err(NotFound(NoInstance));
    }
    var bdms := BdmsOf(cloud, serverId);
    var found := false;
    var deviceName := "";
    for i := 0 to |bdms|
      invariant LastDevice(bdms[..i], bdmId) == if found then Some(deviceName) else None
    {
      assert bdms[..i + 1][..i] == bdms[..i];
      if bdmId == bdms[i].id {
        deviceName := bdms[i].deviceName;
        found := true;
      }
    }
    assert bdms[..|bdms|] == bdms;
    if !found {
      return Err(NotFound(NoBlockDevice));
    }
    var got := GetQosFromBody(body);
    if got.Err? {
      return Err(got.error);
    }
    var qos := got.value;
    if bdmId !in cloud.records {
      return Err(NotFound(NoQosRecord));
    }
    var stored := cloud.records[bdmId];
    var conflict := CheckConflict(qos);
    if conflict {
      return Err(BadRequest(Conflict));
    }
    qos := ClearRates(stored, qos);
    return Ok(Updated(qos, QosView(Fields(stored) + qos, deviceName)));
  }

  /** The flag `update` raises over its argument checks. */
  method CheckConflict(qos: Qos) returns (conflict: bool)
    ensures conflict == Conflicting(qos)
  {
    conflict := false;
    if "total_bps" in qos {
      if "read_bps" in qos && qos["total_bps"] != 0 && qos["read_bps"] != 0 {
        conflict := true;
      }
      if "write_bps" in qos && qos["total_bps"] != 0 && qos["write_bps"] != 0 {
        conflict := true;
      }
    }
    if "total_iops" in qos {
      if "read_iops" in qos && qos["total_iops"] != 0 && qos["read_iops"] != 0 {
        conflict := true;
      }
      if "write_iops" in qos && qos["total_iops"] != 0 && qos["write_iops"] != 0 {
        conflict := true;
      }
    }
  }

  /** The clearing rules of `update`, applied in place to the request's rates. */
  method ClearRates(stored: QosRecord, qos0: Qos) returns (qos: Qos)
    ensures qos == Cleared(stored, qos0)
  {
    qos := qos0;
    if stored.totalBps != 0 {
      if ("read_bps" in qos && qos["read_bps"] != 0) || ("write_bps" in qos && qos["write_bps"] != 0) {
        qos := qos["total_bps" := 0];
      }
    }
    if stored.totalIops != 0 {
      if ("read_iops" in qos && qos["read_iops"] != 0) || ("write_iops" in qos && qos["write_iops"] != 0) {
        qos := qos["total_iops" := 0];
      }
    }
    if (stored.readBps != 0 || stored.writeBps != 0) && "total_bps" in qos && qos["total_bps"] != 0 {
      qos := qos["read_bps" := 0];
      qos := qos["write_bps" := 0];
    }
    if (stored.readIops != 0 || stored.writeIops != 0) && "total_iops" in qos && qos["total_iops"] != 0 {
      qos := qos["read_iops" := 0];
      qos := qos["write_iops" := 0];
    }
  }

  /**
   * The invariant of the clearing rules: a stored record without a total next
   * to a read or write limit, updated by a request without conflict, again has
   * none. `sent` keeps every requested rate or sets it to 0, and adds no key
   * outside the six.
   */
  lemma ClearedKeepsExclusive(stored: QosRecord, qos: Qos)
    requires Exclusive(Fields(stored)) && !Conflicting(qos)
    ensures Exclusive(Fields(stored) + Cleared(stored, qos))
  {
  }

  lemma ClearedOnlyZeroes(stored: QosRecord, qos: Qos)
    ensures var sent := Cleared(stored, qos);
      && qos.Keys <= sent.Keys
      && (forall k :: k in sent && k !in qos ==> k in QosKeys && sent[k] == 0)
      && (forall k :: k in qos ==> sent[k] == qos[k] || sent[k] == 0)
  {
  }

  /** A successful update leaves every stored record with exclusive limits exclusive. */
  lemma UpdateKeepsExclusive(id: Value, serverId: string, body: map<string, Request>, cloud: Cloud,
                             uuidLike: string -> bool)
    requires forall b :: b in cloud.records ==> Exclusive(Fields(cloud.records[b]))
    ensures var r := UpdateOutcome(id, serverId, body, cloud, uuidLike);
      r.Ok? ==> Exclusive(r.value.view.fields)
  {
    var r := UpdateOutcome(id, serverId, body, cloud, uuidLike);
    if r.Ok? {
      var bdmId := ToInt(id).value;
      ClearedKeepsExclusive(cloud.records[bdmId], QosFromBody(body).value);
    }
  }

  /**
   * A request that passes every earlier check is refused as conflicting
   * exactly when its rates set a non-zero total with a non-zero read or write
   * rate of the same kind.
   */
  lemma UpdateConflict(id: Value, serverId: string, body: map<string, Request>, cloud: Cloud,
                       uuidLike: string -> bool)
    requires ToInt(id).Ok? && uuidLike(serverId) && serverId in cloud.instances
    requires LastDevice(BdmsOf(cloud, serverId), ToInt(id).value).Some?
    requires QosFromBody(body).Ok? && ToInt(id).value in cloud.records
    ensures UpdateOutcome(id, serverId, body, cloud, uuidLike) == Err(BadRequest(Conflict))
            <==> Conflicting(QosFromBody(body).value)
  {
  }

  /** The refusals only the body checks make. */
  predicate BodyReason(f: Fault) {
    f.BadRequest? && f.reason in {MissingQos, NotAnInteger, Negative, BelowMinimum}
  }

  /**
   * The order of the checks of `update`: the id and the server id are checked
   * before any lookup, so then neither the body nor the cloud matters; a
   * missing stored record is reported only for a valid body on a block device
   * the server has; a body refusal only once that block device was found.
   */
  lemma UpdateOrder(id: Value, serverId: string, body: map<string, Request>, cloud: Cloud,
                    uuidLike: string -> bool, otherBody: map<string, Request>, otherCloud: Cloud)
    ensures ToInt(id).Err? || !uuidLike(serverId) ==>
              UpdateOutcome(id, serverId, body, cloud, uuidLike) == UpdateOutcome(id, serverId, otherBody, otherCloud, uuidLike)
    ensures ToInt(id).Ok? && uuidLike(serverId) && serverId in cloud.instances
            && LastDevice(BdmsOf(cloud, serverId), ToInt(id).value).None? ==>
              UpdateOutcome(id, serverId, body, cloud, uuidLike) == Err(NotFound(NoBlockDevice))
    ensures UpdateOutcome(id, serverId, body, cloud, uuidLike) == Err(NotFound(NoQosRecord)) ==>
              QosFromBody(body).Ok? && ToInt(id).Ok? && LastDevice(BdmsOf(cloud, serverId), ToInt(id).value).Some?
    ensures var r := UpdateOutcome(id, serverId, body, cloud, uuidLike);
      r.Err? && BodyReason(r.error) ==>
        && QosFromBody(body) == Err(r.error) && ToInt(id).Ok? && uuidLike(serverId) && serverId in cloud.instances
        && LastDevice(BdmsOf(cloud, serverId), ToInt(id).value).Some?
  {
    var r := UpdateOutcome(id, serverId, body, cloud, uuidLike);
    if r.Err? && BodyReason(r.error) {
      assert ToInt(id).Ok?;
      assert uuidLike(serverId) && serverId in cloud.instances;
      assert LastDevice(BdmsOf(cloud, serverId), ToInt(id).value).Some?;
      assert QosFromBody(body).Err?;
      assert r == Err(QosFromBody(body).error);
      assert QosFromBody(body) == Err(r.error);
    } else if r == Err(NotFound(NoQosRecord)) {
      assert ToInt(id).Ok? && uuidLike(serverId) && serverId in cloud.instances;
      assert LastDevice(BdmsOf(cloud, serverId), ToInt(id).value).Some?;
    }
  }

  /**
   * The response of a successful update: the stored record's eight fields,
   * each rate replaced by the sent value where one was sent, the ids as
   * stored, and the device name of the block device found.
   */
  lemma UpdateResult(id: Value, serverId: string, body: map<string, Request>, cloud: Cloud,
                     uuidLike: string -> bool)
    ensures var r := UpdateOutcome(id, serverId, body, cloud, uuidLike);
      r.Ok? ==>
        var stored := cloud.records[ToInt(id).value];
        && r.value.view.fields.Keys == Fields(stored).Keys
        && (forall k :: k in QosKeys ==>
              r.value.view.fields[k] == if k in r.value.sent then r.value.sent[k] else Fields(stored)[k])
        && r.value.view.fields["id"] == stored.id
        && r.value.view.fields["block_device_mapping_id"] == stored.bdmId
        && Some(r.value.view.deviceName) == LastDevice(BdmsOf(cloud, serverId), ToInt(id).value)
  {
    var r := UpdateOutcome(id, serverId, body, cloud, uuidLike);
    if r.Ok? {
      var qos := QosFromBody(body).value;
      var stored := cloud.records[ToInt(id).value];
      QosOfShape(body["qos_block_device"]);
      ClearedOnlyZeroes(stored, qos);
      MergedFields(stored, Cleared(stored, qos));
    }
  }

  /** The rates of the update the tests make. */
  function PutRates(): Qos {
    map["total_bps" := 0, "total_iops" := 0, "read_bps" := 2000000,
        "write_bps" := 2000000, "read_iops" := 100, "write_iops" := 1000]
  }

  /** The same rates as the request body carries them, as JSON numbers. */
  function PutRequest(): Request {
    map k | k in PutRates() :: Int(PutRates()[k])
  }

  /** A request of JSON numbers for some of the six rates, all in range, yields exactly those rates. */
  lemma QosOfNumbers(m: Qos)
    requires forall k :: k in m ==> k in QosKeys && CheckKey(k, Int(m[k])).Ok?
    ensures QosOf(map k | k in m :: Int(m[k])) == Ok(m)
  {
    var req := map k | k in m :: Int(m[k]);
    QosOfShape(req);
    var q := QosOf(req).value;
    assert q.Keys == m.Keys;
    assert q == m;
  }

  lemma PutBodyExample()
    ensures QosOf(PutRequest()) == Ok(PutRates())
  {
    QosOfNumbers(PutRates());
  }

  /**
   * The update the tests make: read and write limits over a record that has
   * no totals pass through unchanged, and the response adds the ids and the
   * device name.
   */
  lemma PutExample(uuidLike: string -> bool)
    requires uuidLike("8ab0e5b9-d87a-457e-ae58-9f4bb22e8c3d")
    ensures var server := "8ab0e5b9-d87a-457e-ae58-9f4bb22e8c3d";
      var cloud := Cloud({server}, map[server := [Bdm(18, "/dev/vda")]],
                         map[18 := QosRecord(0, 0, 10000, 10000, 50, 50, 18, 28)]);
      UpdateOutcome(Int(18), server, map["qos_block_device" := PutRequest()], cloud, uuidLike)
        == Ok(Updated(PutRates(), QosView(PutRates()["block_device_mapping_id" := 18]["id" := 28], "/dev/vda")))
  {
    PutBodyExample();
    var stored := QosRecord(0, 0, 10000, 10000, 50, 50, 18, 28);
    assert Cleared(stored, PutRates()) == PutRates();
    PutFieldsExample(stored);
  }

  lemma PutFieldsExample(stored: QosRecord)
    requires stored == QosRecord(0, 0, 10000, 10000, 50, 50, 18, 28)
    ensures Fields(stored) + PutRates() == PutRates()["block_device_mapping_id" := 18]["id" := 28]
  {
    MergedFields(stored, PutRates());
  }

  /** The stored fields overridden by rates among the six keep their keys and both ids. */
  lemma MergedFields(stored: QosRecord, sent: Qos)
    requires forall k :: k in sent ==> k in QosKeys
    ensures var m := Fields(stored) + sent;
      && m.Keys == Fields(stored).Keys
      && (forall k :: k in QosKeys ==> m[k] == if k in sent then sent[k] else Fields(stored)[k])
      && m["id"] == stored.id && m["block_device_mapping_id"] == stored.bdmId
  {
    assert "id" !in QosKeys && "block_device_mapping_id" !in QosKeys;
    assert forall k :: k in QosKeys ==> k in Fields(stored);
  }

  /** The entries of `index`: every mapping with a stored record, in mapping order. */
  function Listing(bdms: seq<Bdm>, records: map<int, QosRecord>): seq<QosView> {
    if bdms == [] then []
    else
      var rest := Listing(bdms[..|bdms| - 1], records);
      var b := bdms[|bdms| - 1];
      if b.id in records then rest + [QosView(Fields(records[b.id]), b.deviceName)] else rest
  }

  /** `index` from its arguments to its response. */
  function IndexOutcome(serverId: string, cloud: Cloud, uuidLike: string -> bool): Result<seq<QosView>, Fault> {
    if !uuidLike(serverId) then Err(BadRequest(BadServerId))
    else if serverId !in cloud.instances then Err(NotFound(NoInstance))
    else Ok(Listing(BdmsOf(cloud, serverId), cloud.records))
  }

  /** QoSBlockDeviceController.index. */
  method Index(serverId: string, cloud: Cloud, uuidLike: string -> bool) returns (r: Result<seq<QosView>, Fault>)
    ensures r == IndexOutcome(serverId, cloud, uuidLike)
  {
    if !uuidLike(serverId) {
      return Err(BadRequest(BadServerId));
    }
    if serverId !in cloud.instances {
      return Err(NotFound(NoInstance));
    }
    var bdms := BdmsOf(cloud, serverId);
    var result: seq<QosView> := [];
    for i := 0 to |bdms|
      invariant result == Listing(bdms[..i], cloud.records)
    {
      assert bdms[..i + 1][..i] == bdms[..i];
      var bdm := bdms[i];
      if bdm.id !in cloud.records {
        continue;
      }
      var stored := cloud.records[bdm.id];
      result := result + [QosView(Fields(stored), bdm.deviceName)];
    }
    assert bdms[..|bdms|] == bdms;
    return Ok(result);
  }

  /** The listing of two runs of mappings is the two listings one after the other. */
  lemma {:induction false} ListingAppend(a: seq<Bdm>, b: seq<Bdm>, records: map<int, QosRecord>)
    ensures Listing(a + b, records) == Listing(a, records) + Listing(b, records)
    decreases |b|
  {
    if b == [] {
      assert a + b == a;
    } else {
      var b' := b[..|b| - 1];
      assert (a + b)[..|a + b| - 1] == a + b';
      assert (a + b)[|a + b| - 1] == b[|b| - 1];
      ListingAppend(a, b', records);
    }
  }

  /**
   * An entry is listed exactly for the mappings that have a stored record:
   * their stored fields and device name; mappings without one are skipped.
   */
  lemma {:induction false} ListingMembers(bdms: seq<Bdm>, records: map<int, QosRecord>)
    ensures forall v :: v in Listing(bdms, records) <==>
              exists i :: 0 <= i < |bdms| && bdms[i].id in records
                          && v == QosView(Fields(records[bdms[i].id]), bdms[i].deviceName)
  {
    if bdms != [] {
      var init := bdms[..|bdms| - 1];
      ListingMembers(init, records);
      assert forall i :: 0 <= i < |init| ==> init[i] == bdms[i];
    }
  }

  /** No mapping with a record: an empty listing. */
  lemma {:induction false} ListingSkipsAll(bdms: seq<Bdm>, records: map<int, QosRecord>)
    requires forall i :: 0 <= i < |bdms| ==> bdms[i].id !in records
    ensures Listing(bdms, records) == []
  {
    if bdms != [] {
      var init := bdms[..|bdms| - 1];
      assert forall i :: 0 <= i < |init| ==> init[i] == bdms[i];
      ListingSkipsAll(init, records);
    }
  }
}
