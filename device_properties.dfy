/** What the device-resolution rule promises, stated about `Devices.Resolve`. */
module DeviceProperties {
  import opened Wrappers
  import Decimal
  import opened Devices

  predicate AllNumbers(args: seq<string>) {
    forall i :: 0 <= i < |args| ==> Decimal.IsDigits(args[i])
  }

  /** A list of exactly n entries is shared: every rank uses all of it. */
  lemma SliceShared(n: nat, list: seq<nat>, myRank: nat, numProcesses: nat)
    requires n > 0 && myRank < numProcesses && |list| == n
    ensures ValidateAndSlice(n, list, myRank, numProcesses) == Ok(list)
  {
    DivSelf(n);
  }

  /** With several processes, a length that is not a multiple of n is refused. */
  lemma SliceNotMultiple(n: nat, list: seq<nat>, myRank: nat, numProcesses: nat)
    requires n > 0 && myRank < numProcesses && numProcesses != 1
    requires |list| % n != 0
    ensures ValidateAndSlice(n, list, myRank, numProcesses) == Err(SizeNotMultipleOfNumDevices)
  {
    DivExact(|list|, n);
  }

  /** With several processes, more than one block of n entries is one block per rank. */
  lemma SliceBlocks(n: nat, list: seq<nat>, myRank: nat, numProcesses: nat, blocks: nat)
    requires n > 0 && myRank < numProcesses && numProcesses != 1 && blocks > 1
    requires |list| == blocks * n
    ensures blocks != numProcesses ==> ValidateAndSlice(n, list, myRank, numProcesses) == Err(NeitherSharedNorPerProcess)
    ensures blocks == numProcesses ==>
      (myRank * n + n <= |list| && ValidateAndSlice(n, list, myRank, numProcesses) == Ok(Block(list, myRank, n)))
  {
    DivBlocks(blocks, n);
    if blocks == numProcesses {
      BlockFits(myRank, numProcesses, n);
    }
  }

  /**
   * The validations in full: a list of exactly n entries is shared; with one
   * process any other length is refused; with several, the length must be a
   * multiple of n and then exactly one block of n per process, of which this
   * rank gets its own.
   */
  lemma SliceCases(n: nat, list: seq<nat>, myRank: nat, numProcesses: nat)
    requires n > 0 && myRank < numProcesses
    ensures var r := ValidateAndSlice(n, list, myRank, numProcesses);
      && (|list| == n ==> r == Ok(list))
      && (|list| != n && numProcesses == 1 ==> r == Err(SizeNotEqualToNumDevices))
      && (|list| != n && numProcesses != 1 && |list| % n != 0 ==> r == Err(SizeNotMultipleOfNumDevices))
      && (|list| != n && numProcesses != 1 && |list| % n == 0 && |list| != n * numProcesses ==>
            r == Err(NeitherSharedNorPerProcess))
      && (|list| != n && |list| == n * numProcesses ==>
            (myRank * n + n <= |list| && r == Ok(Block(list, myRank, n))))
  {
    DivBlocks(numProcesses, n);
    if |list| == n {
      SliceShared(n, list, myRank, numProcesses);
    } else if numProcesses == 1 {
    } else if |list| % n != 0 {
      SliceNotMultiple(n, list, myRank, numProcesses);
    } else {
      DivExact(|list|, n);
      var blocks := |list| / n;
      assert |list| == blocks * n;
      if blocks == 0 {
        assert |list| != n * numProcesses;
      } else if blocks == 1 {
        assert false;
      } else {
        SliceBlocks(n, list, myRank, numProcesses, blocks);
        assert |list| == n * numProcesses <==> blocks == numProcesses;
      }
    }
  }

  /** With every entry a number, GPU resolution is the validation of the defaulted count and list. */
  lemma GpuPath(numDevicesArg: nat, devicesArg: seq<string>, myRank: nat, numProcesses: nat)
    requires AllNumbers(devicesArg) && myRank < numProcesses
    ensures var nos := ParseAll(devicesArg).value;
      var s := ValidateAndSlice(Count(numDevicesArg, nos), Listed(numDevicesArg, nos), myRank, numProcesses);
      Resolve(0, numDevicesArg, devicesArg, myRank, numProcesses) == if s.Ok? then Ok(WithKind(s.value, Gpu)) else Err(s.error)
  {
  }

  /** With `cpu-threads` N > 0 the devices are the CPU threads 0 .. N-1, ascending. */
  lemma CpuThreadsEnumerate(cpuThreads: nat, numDevicesArg: nat, devicesArg: seq<string>, myRank: nat, numProcesses: nat)
    requires cpuThreads > 0 && myRank < numProcesses
    ensures var r := Resolve(cpuThreads, numDevicesArg, devicesArg, myRank, numProcesses);
      && r.Ok? && |r.value| == cpuThreads
      && forall i :: 0 <= i < cpuThreads ==> r.value[i] == DeviceId(i, Cpu)
  {
  }

  /** With `cpu-threads` > 0, neither `devices`, `num-devices` nor the MPI topology matter. */
  lemma CpuIgnoresGpuSettings(cpuThreads: nat,
                              numDevicesArg: nat, devicesArg: seq<string>, myRank: nat, numProcesses: nat,
                              numDevicesArg': nat, devicesArg': seq<string>, myRank': nat, numProcesses': nat)
    requires cpuThreads > 0 && myRank < numProcesses && myRank' < numProcesses'
    ensures Resolve(cpuThreads, numDevicesArg, devicesArg, myRank, numProcesses)
         == Resolve(cpuThreads, numDevicesArg', devicesArg', myRank', numProcesses')
  {
  }

  /**
   * With no `devices` list the GPUs are 0 .. N-1 for `num-devices` N > 0,
   * and the single GPU 0 when `num-devices` is absent or 0, on every rank.
   */
  lemma NoDeviceList(numDevicesArg: nat, myRank: nat, numProcesses: nat)
    requires myRank < numProcesses
    ensures numDevicesArg == 0 ==> Resolve(0, numDevicesArg, [], myRank, numProcesses) == Ok([DeviceId(0, Gpu)])
    ensures numDevicesArg > 0 ==>
      var r := Resolve(0, numDevicesArg, [], myRank, numProcesses);
      && r.Ok? && |r.value| == numDevicesArg
      && forall i :: 0 <= i < numDevicesArg ==> r.value[i] == DeviceId(i, Gpu)
  {
    var n := Count(numDevicesArg, []);
    SliceShared(n, Range(n), myRank, numProcesses);
    assert WithKind(Range(1), Gpu) == [DeviceId(0, Gpu)];
  }

  /**
   * With a `devices` list and `num-devices` absent or 0, the list is used
   * verbatim (order kept, duplicates kept), all GPUs, on every rank.
   */
  lemma ListWithoutCount(devicesArg: seq<string>, myRank: nat, numProcesses: nat)
    requires devicesArg != [] && AllNumbers(devicesArg) && myRank < numProcesses
    ensures var r := Resolve(0, 0, devicesArg, myRank, numProcesses);
      && r.Ok? && |r.value| == |devicesArg|
      && forall i :: 0 <= i < |devicesArg| ==> r.value[i] == DeviceId(Decimal.Parse(devicesArg[i]), Gpu)
  {
    var nos := ParseAll(devicesArg).value;
    SliceShared(|nos|, nos, myRank, numProcesses);
  }

  /**
   * A single process fails exactly when a `num-devices` N > 0 and a
   * non-empty `devices` list are both given and the list does not hold N
   * entries; otherwise it uses the defaulted list as it stands.
   */
  lemma SingleProcess(numDevicesArg: nat, devicesArg: seq<string>)
    requires AllNumbers(devicesArg)
    ensures var mismatch := devicesArg != [] && numDevicesArg != 0 && numDevicesArg != |devicesArg|;
      var r := Resolve(0, numDevicesArg, devicesArg, 0, 1);
      && (mismatch ==> r == Err(SizeNotEqualToNumDevices))
      && (!mismatch ==> r == Ok(WithKind(Listed(numDevicesArg, ParseAll(devicesArg).value), Gpu)))
  {
    var nos := ParseAll(devicesArg).value;
    SliceCases(Count(numDevicesArg, nos), Listed(numDevicesArg, nos), 0, 1);
  }

  /** With several processes, a list whose length is not a multiple of `num-devices` N > 0 fails, and only such a list fails so. */
  lemma NotAMultiple(numDevicesArg: nat, devicesArg: seq<string>, myRank: nat, numProcesses: nat)
    requires AllNumbers(devicesArg) && devicesArg != [] && numDevicesArg > 0
    requires myRank < numProcesses && numProcesses != 1
    ensures Resolve(0, numDevicesArg, devicesArg, myRank, numProcesses) == Err(SizeNotMultipleOfNumDevices)
        <==> |devicesArg| % numDevicesArg != 0
  {
    var nos := ParseAll(devicesArg).value;
    assert Count(numDevicesArg, nos) == numDevicesArg && Listed(numDevicesArg, nos) == nos;
    GpuPath(numDevicesArg, devicesArg, myRank, numProcesses);
    SliceCases(numDevicesArg, nos, myRank, numProcesses);
  }

  /**
   * A list of `blocks` > 1 blocks of `num-devices` entries is one block
   * per process: it fails unless there are exactly `numProcesses` blocks,
   * and otherwise this rank gets its own block, in order.
   */
  lemma PerProcessBlocks(numDevicesArg: nat, devicesArg: seq<string>, myRank: nat, numProcesses: nat, blocks: nat)
    requires AllNumbers(devicesArg) && numDevicesArg > 0 && blocks > 1
    requires |devicesArg| == blocks * numDevicesArg
    requires myRank < numProcesses && numProcesses != 1
    ensures var r := Resolve(0, numDevicesArg, devicesArg, myRank, numProcesses);
      && (blocks != numProcesses ==> r == Err(NeitherSharedNorPerProcess))
      && (blocks == numProcesses ==>
            && myRank * numDevicesArg + numDevicesArg <= |devicesArg|
            && r == Ok(WithKind(Block(ParseAll(devicesArg).value, myRank, numDevicesArg), Gpu)))
  {
    var nos := ParseAll(devicesArg).value;
    assert nos != [] && Count(numDevicesArg, nos) == numDevicesArg && Listed(numDevicesArg, nos) == nos;
    GpuPath(numDevicesArg, devicesArg, myRank, numProcesses);
    SliceBlocks(numDevicesArg, nos, myRank, numProcesses, blocks);
  }

  /**
   * Resolution succeeds exactly when every entry of `devices` is a number
   * and the defaulted list is either one shared block of numDevices
   * entries or exactly one such block per process.
   */
  lemma SucceedsExactly(numDevicesArg: nat, devicesArg: seq<string>, myRank: nat, numProcesses: nat)
    requires myRank < numProcesses
    ensures Resolve(0, numDevicesArg, devicesArg, myRank, numProcesses).Ok? <==>
      && AllNumbers(devicesArg)
      && var nos := ParseAll(devicesArg).value;
         var n := Count(numDevicesArg, nos);
         var len := |Listed(numDevicesArg, nos)|;
         len == n || len == n * numProcesses
  {
    if AllNumbers(devicesArg) {
      var nos := ParseAll(devicesArg).value;
      var n := Count(numDevicesArg, nos);
      var len := |Listed(numDevicesArg, nos)|;
      SliceCases(n, Listed(numDevicesArg, nos), myRank, numProcesses);
      if len != n && numProcesses != 1 && len % n == 0 {
        DivExact(len, n);
      }
    }
  }

  /** A successful validation yields exactly n entries, each taken from the list. */
  lemma SliceShape(n: nat, list: seq<nat>, myRank: nat, numProcesses: nat)
    requires n > 0 && myRank < numProcesses
    requires ValidateAndSlice(n, list, myRank, numProcesses).Ok?
    ensures var s := ValidateAndSlice(n, list, myRank, numProcesses).value;
      |s| == n && forall i :: 0 <= i < |s| ==> s[i] in list
  {
    var q := |list| / n;
    assert n * q == |list|;
    if q != 1 {
      BlockFits(myRank, numProcesses, n);
      var block := Block(list, myRank, n);
      assert ValidateAndSlice(n, list, myRank, numProcesses) == Ok(block);
      forall i | 0 <= i < n ensures block[i] in list {
        assert block[i] == list[myRank * n + i];
      }
    } else {
      assert ValidateAndSlice(n, list, myRank, numProcesses) == Ok(list);
      DivSelf(n);
    }
  }

  /**
   * Every successful GPU resolution yields exactly numDevices GPUs (the
   * `num-devices` value when it is given), each taken from the defaulted list.
   */
  lemma GpuResultShape(numDevicesArg: nat, devicesArg: seq<string>, myRank: nat, numProcesses: nat)
    requires myRank < numProcesses
    requires Resolve(0, numDevicesArg, devicesArg, myRank, numProcesses).Ok?
    ensures var ds := Resolve(0, numDevicesArg, devicesArg, myRank, numProcesses).value;
      var nos := ParseAll(devicesArg).value;
      && |ds| == Count(numDevicesArg, nos)
      && (numDevicesArg > 0 ==> |ds| == numDevicesArg)
      && forall i :: 0 <= i < |ds| ==> ds[i].kind == Gpu && ds[i].no in Listed(numDevicesArg, nos)
  {
    var nos := ParseAll(devicesArg).value;
    SliceShape(Count(numDevicesArg, nos), Listed(numDevicesArg, nos), myRank, numProcesses);
  }

  /**
   * A list that is a single shared block gives the same devices on every
   * rank and for every number of processes.
   */
  lemma SharedBlockSameForEveryRank(numDevicesArg: nat, devicesArg: seq<string>,
                                                       myRank: nat, numProcesses: nat, otherRank: nat, otherProcesses: nat)
    requires myRank < numProcesses && otherRank < otherProcesses
    requires devicesArg == [] || numDevicesArg == 0 || numDevicesArg == |devicesArg|
    ensures Resolve(0, numDevicesArg, devicesArg, myRank, numProcesses)
         == Resolve(0, numDevicesArg, devicesArg, otherRank, otherProcesses)
  {
    if AllNumbers(devicesArg) {
      var nos := ParseAll(devicesArg).value;
      var n := Count(numDevicesArg, nos);
      SliceShared(n, Listed(numDevicesArg, nos), myRank, numProcesses);
      SliceShared(n, Listed(numDevicesArg, nos), otherRank, otherProcesses);
    }
  }

  /** One process is either CPU-only or GPU-only: every device has the kind `cpu-threads` selects. */
  lemma OneKindPerProcess(cpuThreads: nat, numDevicesArg: nat, devicesArg: seq<string>, myRank: nat, numProcesses: nat)
    requires myRank < numProcesses
    requires Resolve(cpuThreads, numDevicesArg, devicesArg, myRank, numProcesses).Ok?
    ensures var ds := Resolve(cpuThreads, numDevicesArg, devicesArg, myRank, numProcesses).value;
      forall i :: 0 <= i < |ds| ==> ds[i].kind == (if cpuThreads > 0 then Cpu else Gpu)
  {
    if cpuThreads == 0 {
      GpuResultShape(numDevicesArg, devicesArg, myRank, numProcesses);
    }
  }
}
