/**
 * The `Config` object: the settings document it owns, its `has`/`get`
 * lookups, `override`, and `getDevices`, which reads `devices`,
 * `cpu-threads` and `num-devices` from the document and resolves them.
 */
module Configuration {
  import opened Wrappers
  import opened Settings
  import opened Devices
  import Decimal

  /** A failed typed read of a setting, or a refused device configuration. */
  datatype ConfigError = Read(readError: ReadError) | Device(deviceError: DeviceError)

  /**
   * The devices `getDevices` returns for a document: `devices` is read
   * first, then `cpu-threads`; `num-devices` is read only on the GPU path
   * and only when present, and counts as 0 when absent.
   */
  function DevicesOf(doc: Document, myRank: nat, numProcesses: nat): Result<seq<DeviceId>, ConfigError>
    requires myRank < numProcesses
  {
    match GetStrings(doc, "devices")
    case Err(e) => Err(Read(e))
    case Ok(devicesArg) =>
      match GetCount(doc, "cpu-threads")
      case Err(e) => Err(Read(e))
      case Ok(cpuThreads) =>
        var numDevicesArg := if cpuThreads > 0 || "num-devices" !in doc then Ok(0) else GetCount(doc, "num-devices");
        match numDevicesArg
        case Err(e) => Err(Read(e))
        case Ok(numDevices) =>
          match Resolve(cpuThreads, numDevices, devicesArg, myRank, numProcesses)
          case Err(e) => Err(Device(e))
          case Ok(ds) => Ok(ds)
  }

  /** Resolution reads only `devices`, `cpu-threads` and `num-devices`: documents that agree on them agree on the devices. */
  lemma DevicesReadThreeKeys(doc: Document, doc': Document, myRank: nat, numProcesses: nat)
    requires myRank < numProcesses
    requires forall k :: k in {"devices", "cpu-threads", "num-devices"} ==>
      (k in doc <==> k in doc') && (k in doc ==> doc[k] == doc'[k])
    ensures DevicesOf(doc, myRank, numProcesses) == DevicesOf(doc', myRank, numProcesses)
  {
    assert "devices" in {"devices", "cpu-threads", "num-devices"};
    assert "cpu-threads" in {"devices", "cpu-threads", "num-devices"};
    assert "num-devices" in {"devices", "cpu-threads", "num-devices"};
  }

  /** Overriding keys other than the three device settings does not change the devices. */
  lemma OverrideKeepsDevices(doc: Document, params: Document, myRank: nat, numProcesses: nat)
    requires myRank < numProcesses
    requires "devices" !in params && "cpu-threads" !in params && "num-devices" !in params
    ensures DevicesOf(Overridden(doc, params), myRank, numProcesses) == DevicesOf(doc, myRank, numProcesses)
  {
    DevicesReadThreeKeys(Overridden(doc, params), doc, myRank, numProcesses);
  }

  /**
   * A document whose `cpu-threads` is N > 0 and whose `devices` is any list
   * of strings yields the CPU threads 0 .. N-1, whatever `num-devices` holds.
   */
  lemma CpuSettingsYieldThreads(doc: Document, texts: seq<string>, n: nat, myRank: nat, numProcesses: nat)
    requires n > 0 && myRank < numProcesses
    ensures var d := doc["devices" := Scalars(texts)]["cpu-threads" := Scalar(Decimal.Format(n))];
      var r := DevicesOf(d, myRank, numProcesses);
      && r.Ok? && |r.value| == n
      && forall i :: 0 <= i < n ==> r.value[i] == DeviceId(i, Cpu)
  {
    var d1 := doc["devices" := Scalars(texts)];
    StringsReadBack(doc, "devices", texts);
    ReadsAreLocal(d1, "devices", "cpu-threads", Scalar(Decimal.Format(n)));
    CountReadsBack(d1, "cpu-threads", n);
  }

  /** A document with `cpu-threads` 0 and no `num-devices` resolves its `devices` list like `Resolve` with count 0. */
  lemma GpuSettingsResolve(doc: Document, texts: seq<string>, myRank: nat, numProcesses: nat)
    requires myRank < numProcesses && "num-devices" !in doc
    ensures var d := doc["devices" := Scalars(texts)]["cpu-threads" := Scalar(Decimal.Format(0))];
      var r := Resolve(0, 0, texts, myRank, numProcesses);
      DevicesOf(d, myRank, numProcesses) == if r.Ok? then Ok(r.value) else Err(Device(r.error))
  {
    var d1 := doc["devices" := Scalars(texts)];
    StringsReadBack(doc, "devices", texts);
    ReadsAreLocal(d1, "devices", "cpu-threads", Scalar(Decimal.Format(0)));
    CountReadsBack(d1, "cpu-threads", 0);
  }

  class Config {
    /** The settings document (`config_`). */
    var settings: Document

    /** A configuration holding its own copy of another configuration's document. */
    constructor (initial: Document)
      ensures settings == initial
    {
      settings := initial;
    }

    /** `has(key)`: whether the key is present at top level. */
    function Has(key: string): (present: bool)
      reads this
      ensures present <==> key in settings
    {
      key in settings
    }

    /** `get(key)`: the key's node, or nothing when the key is absent. */
    function Get(key: string): (v: Option<Value>)
      reads this
      ensures v.Some? <==> Has(key)
      ensures v.Some? ==> v.value == settings[key]
    {
      if key in settings then Some(settings[key]) else None
    }

    /**
     * `override(params)`: each top-level key of `params` is assigned in
     * turn; every key of `params` then holds `params`' value, every other
     * key keeps its value, and no key is removed.
     */
    method Override(params: Document)
      modifies this
      ensures settings == Overridden(old(settings), params)
      ensures forall k :: Has(k) <==> old(Has(k)) || k in params
      ensures forall k :: k in params ==> Get(k) == Some(params[k])
      ensures forall k :: k !in params ==> Get(k) == old(Get(k))
    {
      var pending := params.Keys;
      ghost var done: Document := map[];
      while pending != {}
        invariant pending <= params.Keys
        invariant done.Keys == params.Keys - pending
        invariant forall k :: k in done ==> done[k] == params[k]
        invariant settings == Overridden(old(settings), done)
        decreases pending
      {
        var key :| key in pending;
        settings := settings[key := params[key]];
        done := done[key := params[key]];
        pending := pending - {key};
      }
      assert done == params;
    }

    /** `getDevices(myMPIRank, numMPIProcesses)`: the devices this process uses. */
    method GetDevices(myMPIRank: nat := 0, numMPIProcesses: nat := 1) returns (r: Result<seq<DeviceId>, ConfigError>)
      requires myMPIRank < numMPIProcesses
      ensures r == DevicesOf(settings, myMPIRank, numMPIProcesses)
    {
      var devicesArg := GetStrings(settings, "devices");
      if devicesArg.Err? {
        return Err(Read(devicesArg.error));
      }
      var cpuThreads := GetCount(settings, "cpu-threads");
      if cpuThreads.Err? {
        return Err(Read(cpuThreads.error));
      }
      var numDevices := 0;
      if cpuThreads.value == 0 && Has("num-devices") {
        var n := GetCount(settings, "num-devices");
        if n.Err? {
          return Err(Read(n.error));
        }
        numDevices := n.value;
      }
      var resolved := ResolveDevices(cpuThreads.value, numDevices, devicesArg.value, myMPIRank, numMPIProcesses);
      if resolved.Err? {
        return Err(Device(resolved.error));
      }
      return Ok(resolved.value);
    }
  }
}
