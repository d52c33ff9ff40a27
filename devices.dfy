/**
 * Device resolution of `Config::getDevices`: from `cpu-threads`, the
 * optional `num-devices` and the `devices` list, and from the process's
 * MPI rank and the number of MPI processes, the ordered list of devices
 * (graph instances) this process uses.
 *
 * `Resolve` is the reference definition; `ResolveDevices` is the
 * step-by-step procedure of the source and is proved equal to it; the
 * lemmas state the documented behaviour of `Resolve`.
 */
module Devices {
  import opened Wrappers
  import Decimal

  datatype DeviceType = Cpu | Gpu

  /** A device id: its number and whether it is a CPU thread or a GPU. */
  datatype DeviceId = DeviceId(no: nat, kind: DeviceType)

  /** The fatal errors of resolution, one per `ABORT_IF` plus the failing `std::stoull`. */
  datatype DeviceError =
    | InvalidDeviceNumber(text: string)  // an entry of devices[] is not a number
    | SizeNotEqualToNumDevices           // "devices[] size must be equal to numDevices"
    | SizeNotMultipleOfNumDevices        // "devices[] size must be equal to or a multiple of numDevices"
    | NeitherSharedNorPerProcess          // "devices[] must either list a shared set of devices, or one set per MPI process"

  /** The ids 0 .. n-1, ascending. */
  function Range(n: nat): (r: seq<nat>)
    ensures |r| == n
    ensures forall i :: 0 <= i < n ==> r[i] == i
  {
    if n == 0 then [] else Range(n - 1) + [n - 1]
  }

  /** The device numbers as devices of one kind, in the same order. */
  function WithKind(nos: seq<nat>, kind: DeviceType): (r: seq<DeviceId>)
    ensures |r| == |nos|
    ensures forall i :: 0 <= i < |nos| ==> r[i] == DeviceId(nos[i], kind)
  {
    if nos == [] then [] else WithKind(nos[..|nos| - 1], kind) + [DeviceId(nos[|nos| - 1], kind)]
  }

  /** Entry i of devices[] is not a number and every entry before it is. */
  predicate FirstInvalid(args: seq<string>, i: int) {
    0 <= i < |args| && !Decimal.IsDigits(args[i]) && forall j :: 0 <= j < i ==> Decimal.IsDigits(args[j])
  }

  /** `std::stoull` over devices[], stopping at the first entry that is not a number. */
  function ParseAll(args: seq<string>): (r: Result<seq<nat>, DeviceError>)
    ensures r.Ok? <==> forall i :: 0 <= i < |args| ==> Decimal.IsDigits(args[i])
    ensures r.Ok? ==> |r.value| == |args|
    ensures r.Ok? ==> forall i :: 0 <= i < |args| ==> Decimal.IsDigits(args[i]) && r.value[i] == Decimal.Parse(args[i])
    ensures r.Err? ==> exists i :: FirstInvalid(args, i) && r.error == InvalidDeviceNumber(args[i])
  {
    if args == [] then Ok([])
    else
      var last := args[|args| - 1];
      match ParseAll(args[..|args| - 1])
      case Err(e) => Err(e)
      case Ok(prefix) =>
        if Decimal.IsDigits(last) then Ok(prefix + [Decimal.Parse(last)])
        else Err(InvalidDeviceNumber(last))
  }

  /**
   * numDevices after defaulting: with no list, the `num-devices` value or 1;
   * with a list and `num-devices` 0 or absent, the list length. It is never
   * zero, so the division that follows is defined.
   */
  function Count(numDevicesArg: nat, deviceNos: seq<nat>): (n: nat)
    ensures n > 0
  {
    if deviceNos == [] then (if numDevicesArg == 0 then 1 else numDevicesArg)
    else if numDevicesArg == 0 then |deviceNos|
    else numDevicesArg
  }

  /** The device numbers after defaulting: the list, or 0 .. numDevices-1 when the list is empty. */
  function Listed(numDevicesArg: nat, deviceNos: seq<nat>): seq<nat> {
    if deviceNos == [] then Range(Count(numDevicesArg, deviceNos)) else deviceNos
  }

  lemma BlockFits(rank: nat, blocks: nat, n: nat)
    requires rank < blocks
    ensures rank * n + n <= blocks * n
  {
    assert blocks * n == rank * n + n + (blocks - rank - 1) * n;
  }

  lemma DivSelf(n: nat)
    requires n > 0
    ensures n / n == 1
  {
  }

  lemma DivBlocks(blocks: nat, n: nat)
    requires n > 0
    ensures (blocks * n) / n == blocks && (blocks * n) % n == 0 && n * blocks == blocks * n
  {
    var q, r := (blocks * n) / n, (blocks * n) % n;
    assert blocks * n == n * q + r && 0 <= r < n;
    assert n * (blocks - q) == r;
    if blocks - q >= 1 {
      assert false;
    } else if blocks - q <= -1 {
      assert false;
    }
  }

  lemma DivExact(len: nat, n: nat)
    requires n > 0
    ensures n * (len / n) == len <==> len % n == 0
  {
    assert len == n * (len / n) + len % n;
  }

  /** Block k of a list cut into consecutive blocks of n entries. */
  function Block(s: seq<nat>, k: nat, n: nat): (b: seq<nat>)
    requires k * n + n <= |s|
    ensures |b| == n
    ensures forall i :: 0 <= i < n ==> b[i] == s[k * n + i]
  {
    s[k * n..][..n]
  }

  /**
   * The three validations on the defaulted count `n` and list, then the
   * cut-out of this rank's block when the list holds one block per process.
   */
  function ValidateAndSlice(n: nat, list: seq<nat>, myRank: nat, numProcesses: nat): Result<seq<nat>, DeviceError>
    requires n > 0 && myRank < numProcesses
  {
    if numProcesses == 1 && n != |list| then Err(SizeNotEqualToNumDevices)
    else if n * (|list| / n) != |list| then Err(SizeNotMultipleOfNumDevices)
    else if |list| / n != 1 then
      if |list| / n != numProcesses then Err(NeitherSharedNorPerProcess)
      else
        BlockFits(myRank, numProcesses, n);
        Ok(Block(list, myRank, n))
    else Ok(list)
  }

  /** The GPU numbers this process uses, or the validation that fails. */
  function SelectGpus(numDevicesArg: nat, deviceNos: seq<nat>, myRank: nat, numProcesses: nat): Result<seq<nat>, DeviceError>
    requires myRank < numProcesses
  {
    ValidateAndSlice(Count(numDevicesArg, deviceNos), Listed(numDevicesArg, deviceNos), myRank, numProcesses)
  }

  /** The reference definition of the device list of one process. */
  function Resolve(cpuThreads: nat, numDevicesArg: nat, devicesArg: seq<string>, myRank: nat, numProcesses: nat)
    : Result<seq<DeviceId>, DeviceError>
    requires myRank < numProcesses
  {
    if cpuThreads > 0 then Ok(WithKind(Range(cpuThreads), Cpu))
    else match ParseAll(devicesArg)
      case Err(e) => Err(e)
      case Ok(nos) =>
        match SelectGpus(numDevicesArg, nos, myRank, numProcesses)
        case Err(e) => Err(e)
        case Ok(gpus) => Ok(WithKind(gpus, Gpu))
  }

  /** Once a prefix of devices[] fails to parse, the whole list fails with the same error. */
  lemma {:induction false} ParseAllPrefixError(args: seq<string>, j: nat)
    requires j <= |args| && ParseAll(args[..j]).Err?
    ensures ParseAll(args) == ParseAll(args[..j])
    decreases |args| - j
  {
    if j < |args| {
      assert args[..j + 1][..j] == args[..j];
      ParseAllPrefixError(args, j + 1);
    } else {
      assert args[..j] == args;
    }
  }

  /** The `std::stoull` loop over devices[], keeping order and duplicates. */
  method ParseDeviceNos(devicesArg: seq<string>) returns (r: Result<seq<nat>, DeviceError>)
    ensures r == ParseAll(devicesArg)
  {
    var deviceNos: seq<nat> := [];
    for j := 0 to |devicesArg|
      invariant ParseAll(devicesArg[..j]) == Ok(deviceNos)
    {
      assert devicesArg[..j + 1][..j] == devicesArg[..j];
      if !Decimal.IsDigits(devicesArg[j]) {
        ParseAllPrefixError(devicesArg, j + 1);
        return Err(InvalidDeviceNumber(devicesArg[j]));
      }
      deviceNos := deviceNos + [Decimal.Parse(devicesArg[j])];
    }
    assert devicesArg[..|devicesArg|] == devicesArg;
    return Ok(deviceNos);
  }

  /** The final `push_back` loop: each device number as a device of the given kind, in order. */
  method FormDevices(deviceNos: seq<nat>, kind: DeviceType) returns (devices: seq<DeviceId>)
    ensures devices == WithKind(deviceNos, kind)
  {
    devices := [];
    for k := 0 to |deviceNos|
      invariant devices == WithKind(deviceNos[..k], kind)
    {
      assert deviceNos[..k + 1][..k] == deviceNos[..k];
      devices := devices + [DeviceId(deviceNos[k], kind)];
    }
    assert deviceNos[..|deviceNos|] == deviceNos;
  }

  /**
   * The three `ABORT_IF` checks on the defaulted count and list, then the
   * erase and resize that keep only this rank's block.
   */
  method CheckAndSlice(numDevices: nat, deviceNos: seq<nat>, myRank: nat, numProcesses: nat)
    returns (r: Result<seq<nat>, DeviceError>)
    requires numDevices > 0 && myRank < numProcesses
    ensures r == ValidateAndSlice(numDevices, deviceNos, myRank, numProcesses)
  {
    if numProcesses == 1 && numDevices != |deviceNos| {
      return Err(SizeNotEqualToNumDevices);
    }
    var perProcess := |deviceNos| / numDevices;
    if numDevices * perProcess != |deviceNos| {
      return Err(SizeNotMultipleOfNumDevices);
    }
    var mine := deviceNos;
    if perProcess != 1 {
      if perProcess != numProcesses {
        return Err(NeitherSharedNorPerProcess);
      }
      BlockFits(myRank, numProcesses, numDevices);
      mine := mine[myRank * numDevices..];  // erase the blocks of the lower ranks
      mine := mine[..numDevices];           // resize to this rank's block
    }
    return Ok(mine);
  }

  /**
   * `getDevices` step by step: a loop per `push_back`, the defaulting of
   * numDevices, the three validations, and the erase/resize that cuts out
   * this rank's block. `numDevicesArg` is 0 when `num-devices` is absent.
   */
  method ResolveDevices(cpuThreads: nat, numDevicesArg: nat, devicesArg: seq<string>, myRank: nat, numProcesses: nat)
    returns (r: Result<seq<DeviceId>, DeviceError>)
    requires myRank < numProcesses
    ensures r == Resolve(cpuThreads, numDevicesArg, devicesArg, myRank, numProcesses)
  {
    var devices: seq<DeviceId> := [];
    if cpuThreads > 0 {
      for i := 0 to cpuThreads
        invariant devices == WithKind(Range(i), Cpu)
      {
        assert Range(i + 1)[..i] == Range(i);
        devices := devices + [DeviceId(i, Cpu)];
      }
      return Ok(devices);
    }

    var numDevices := numDevicesArg;
    var parsedArg := ParseDeviceNos(devicesArg);
    if parsedArg.Err? {
      return Err(parsedArg.error);
    }
    var deviceNos := parsedArg.value;
    ghost var parsed := deviceNos;

    if |deviceNos| == 0 {
      if numDevices == 0 {
        numDevices := 1;
      }
      for i := 0 to numDevices
        invariant deviceNos == Range(i)
      {
        deviceNos := deviceNos + [i];
      }
    } else if numDevices == 0 {
      numDevices := |deviceNos|;
    }
    assert numDevices == Count(numDevicesArg, parsed) && deviceNos == Listed(numDevicesArg, parsed);
    var selected := CheckAndSlice(numDevices, deviceNos, myRank, numProcesses);
    if selected.Err? {
      return Err(selected.error);
    }
    devices := FormDevices(selected.value, Gpu);
    return Ok(devices);
  }
}
